/**
  frontend/app/composables/useApi.ts: coalescing of identical reads, cancellation
  of superseded requests and the count behind the `pending` flag.
 */
module ApiRequests {
  import opened Wrappers

  type RequestKey = string
  type RequestId = nat
  type InstanceId = nat

  /** A request on its way: started by `instance`, `coalesced` when later callers may join it. */
  datatype Request = Request(key: RequestKey, instance: InstanceId, coalesced: bool, aborted: bool)

  /**
    The state of one Nuxt app: `controllers` and `inflight` are the two shared
    maps, `active` the counter of every useApi() instance, `outstanding` the
    requests whose inner promise has not settled, `unsettled` the requests whose
    final clean-up of `inflight` is still to run.
   */
  datatype App = App(
    controllers: map<RequestKey, RequestId>,
    inflight: map<RequestKey, RequestId>,
    active: map<InstanceId, int>,
    outstanding: map<RequestId, Request>,
    unsettled: map<RequestId, RequestKey>,
    next: RequestId)

  datatype Call = Call(instance: InstanceId, isGet: bool, key: RequestKey, cancelPrevious: bool)

  predicate Coalesces(call: Call) {
    call.isGet && !call.cancelPrevious
  }

  predicate Joins(app: App, call: Call) {
    Coalesces(call) && call.key in app.inflight
  }

  // ---------------------------------------------------------------------------
  // The operations on values
  // ---------------------------------------------------------------------------

  /** `cancelRequest`: aborts the request that holds the key's controller. */
  function Cancel(app: App, key: RequestKey): App {
    if key !in app.controllers then app
    else
      var id := app.controllers[key];
      app.(controllers := app.controllers - {key},
           outstanding := if id in app.outstanding then app.outstanding[id := app.outstanding[id].(aborted := true)]
                          else app.outstanding)
  }

  /** `fetch`: join the request in flight, or start one. */
  function Fetch(app: App, call: Call): App {
    if Joins(app, call) then app
    else Start(if call.cancelPrevious then Cancel(app, call.key) else app, call)
  }

  /** A new controller, a new request and, for a coalesced read, a new entry in flight. */
  function Start(app: App, call: Call): App {
    var id := app.next;
    app.(controllers := app.controllers[call.key := id],
         inflight := if Coalesces(call) then app.inflight[call.key := id] else app.inflight,
         active := app.active[call.instance := Count(app, call.instance) + 1],
         outstanding := app.outstanding[id := Request(call.key, call.instance, Coalesces(call), false)],
         unsettled := app.unsettled[id := call.key],
         next := id + 1)
  }

  function Count(app: App, instance: InstanceId): int {
    if instance in app.active then app.active[instance] else 0
  }

  /** The inner `finally`: controller and counter. */
  function Settle(app: App, id: RequestId): App
    requires id in app.outstanding
  {
    var request := app.outstanding[id];
    app.(controllers := if request.key in app.controllers && app.controllers[request.key] == id
                        then app.controllers - {request.key} else app.controllers,
         active := app.active[request.instance := Max(0, Count(app, request.instance) - 1)],
         outstanding := app.outstanding - {id})
  }

  /** The outer `finally`, a microtask later: the coalescing entry. */
  function Forget(app: App, id: RequestId): App
    requires id in app.unsettled
  {
    var key := app.unsettled[id];
    app.(inflight := if key in app.inflight && app.inflight[key] == id then app.inflight - {key} else app.inflight,
         unsettled := app.unsettled - {id})
  }

  datatype Step =
    | Fetched(call: Call)
    | Cancelled(key: RequestKey)
    | Settled(id: RequestId)
    | Forgotten(id: RequestId)

  predicate Possible(app: App, step: Step) {
    match step
    case Settled(id) => id in app.outstanding
    case Forgotten(id) => id in app.unsettled && id !in app.outstanding
    case _ => true
  }

  function Apply(app: App, step: Step): App
    requires Possible(app, step)
  {
    match step
    case Fetched(call) => Fetch(app, call)
    case Cancelled(key) => Cancel(app, key)
    case Settled(id) => Settle(app, id)
    case Forgotten(id) => Forget(app, id)
  }

  predicate PossibleRun(app: App, steps: seq<Step>)
    decreases |steps|
  {
    steps != [] ==> Possible(app, steps[0]) && PossibleRun(Apply(app, steps[0]), steps[1..])
  }

  function Run(app: App, steps: seq<Step>): App
    requires PossibleRun(app, steps)
    decreases |steps|
  {
    if steps == [] then app else Run(Apply(app, steps[0]), steps[1..])
  }

  const IDLE := App(map[], map[], map[], map[], map[], 0)

  // ---------------------------------------------------------------------------
  // Invariants
  // ---------------------------------------------------------------------------

  function OutstandingOf(app: App, instance: InstanceId): set<RequestId> {
    set id | id in app.outstanding && app.outstanding[id].instance == instance
  }

  ghost predicate Tracked(app: App) {
    && (forall id <- app.outstanding :: id < app.next && id in app.unsettled && app.unsettled[id] == app.outstanding[id].key)
    && (forall id <- app.unsettled :: id < app.next)
    && (forall key <- app.controllers ::
          var id := app.controllers[key];
          id in app.outstanding && app.outstanding[id].key == key && !app.outstanding[id].aborted)
    && (forall id <- app.outstanding :: app.outstanding[id].coalesced ==>
          app.outstanding[id].key in app.inflight && app.inflight[app.outstanding[id].key] == id)
    && (forall key <- app.inflight :: app.inflight[key] in app.unsettled && app.unsettled[app.inflight[key]] == key)
  }

  ghost predicate Counted(app: App) {
    forall instance :: Count(app, instance) == |OutstandingOf(app, instance)|
  }

  lemma TrackedCancel(app: App, key: RequestKey)
    requires Tracked(app)
    ensures Tracked(Cancel(app, key)) && key !in Cancel(app, key).controllers
  {
  }

  lemma TrackedFetch(app: App, call: Call)
    requires Tracked(app)
    ensures Tracked(Fetch(app, call))
  {
    if !Joins(app, call) {
      TrackedCancel(app, call.key);
      var ready := if call.cancelPrevious then Cancel(app, call.key) else app;
      TrackedStart(ready, call);
      assert Fetch(app, call) == Start(ready, call);
    }
  }

  lemma TrackedStart(app: App, call: Call)
    requires Tracked(app) && !Joins(app, call)
    ensures Tracked(Start(app, call))
  {
    var next := Start(app, call);
    forall key | key in next.controllers
      ensures
        var id := next.controllers[key];
        id in next.outstanding && next.outstanding[id].key == key && !next.outstanding[id].aborted
    {
    }
    forall id | id in next.outstanding && next.outstanding[id].coalesced
      ensures next.outstanding[id].key in next.inflight && next.inflight[next.outstanding[id].key] == id
    {
    }
  }

  lemma TrackedSettle(app: App, id: RequestId)
    requires Tracked(app) && id in app.outstanding
    ensures Tracked(Settle(app, id))
  {
  }

  lemma TrackedForget(app: App, id: RequestId)
    requires Tracked(app) && id in app.unsettled && id !in app.outstanding
    ensures Tracked(Forget(app, id))
  {
  }

  lemma TrackedStep(app: App, step: Step)
    requires Tracked(app) && Possible(app, step)
    ensures Tracked(Apply(app, step))
  {
    match step
    case Fetched(call) => TrackedFetch(app, call);
    case Cancelled(key) => TrackedCancel(app, key);
    case Settled(id) => TrackedSettle(app, id);
    case Forgotten(id) => TrackedForget(app, id);
  }

  lemma StartAddsOne(app: App, call: Call, instance: InstanceId)
    requires app.next !in app.outstanding && Count(app, instance) == |OutstandingOf(app, instance)|
    ensures Count(Start(app, call), instance) == |OutstandingOf(Start(app, call), instance)|
  {
    var before := OutstandingOf(app, instance);
    var after := OutstandingOf(Start(app, call), instance);
    if call.instance == instance {
      assert after == before + {app.next};
    } else {
      assert after == before;
    }
  }

  lemma CountedStart(app: App, call: Call)
    requires app.next !in app.outstanding && Counted(app)
    ensures Counted(Start(app, call))
  {
    forall instance ensures Count(Start(app, call), instance) == |OutstandingOf(Start(app, call), instance)| {
      assert Count(app, instance) == |OutstandingOf(app, instance)|;
      StartAddsOne(app, call, instance);
    }
  }

  lemma CountedCancel(app: App, key: RequestKey)
    requires Tracked(app) && Counted(app)
    ensures Counted(Cancel(app, key))
  {
    var next := Cancel(app, key);
    forall instance ensures Count(next, instance) == |OutstandingOf(next, instance)| {
      assert Count(app, instance) == |OutstandingOf(app, instance)|;
      assert OutstandingOf(next, instance) == OutstandingOf(app, instance);
    }
  }

  lemma CountedSettle(app: App, id: RequestId)
    requires Tracked(app) && Counted(app) && id in app.outstanding
    ensures Counted(Settle(app, id))
  {
    var next := Settle(app, id);
    forall instance ensures Count(next, instance) == |OutstandingOf(next, instance)| {
      var before := OutstandingOf(app, instance);
      assert Count(app, instance) == |before|;
      assert OutstandingOf(next, instance) == if app.outstanding[id].instance == instance then before - {id} else before;
    }
  }

  lemma CountedStep(app: App, step: Step)
    requires Tracked(app) && Counted(app) && Possible(app, step)
    ensures Counted(Apply(app, step))
  {
    match step
    case Fetched(call) =>
      if !Joins(app, call) {
        TrackedCancel(app, call.key);
        CountedCancel(app, call.key);
        CountedStart(if call.cancelPrevious then Cancel(app, call.key) else app, call);
      }
    case Cancelled(key) => CountedCancel(app, key);
    case Settled(id) => CountedSettle(app, id);
    case Forgotten(id) =>
      forall instance ensures Count(Forget(app, id), instance) == |OutstandingOf(Forget(app, id), instance)| {
        assert OutstandingOf(Forget(app, id), instance) == OutstandingOf(app, instance);
        assert Count(app, instance) == |OutstandingOf(app, instance)|;
      }
  }

  lemma {:induction false} InvariantRun(app: App, steps: seq<Step>)
    requires Tracked(app) && Counted(app) && PossibleRun(app, steps)
    ensures Tracked(Run(app, steps)) && Counted(Run(app, steps))
    decreases |steps|
  {
    if steps != [] {
      TrackedStep(app, steps[0]);
      CountedStep(app, steps[0]);
      InvariantRun(Apply(app, steps[0]), steps[1..]);
    }
  }

  lemma IdleInvariant()
    ensures Tracked(IDLE) && Counted(IDLE)
  {
    forall instance ensures Count(IDLE, instance) == |OutstandingOf(IDLE, instance)| {
      assert OutstandingOf(IDLE, instance) == {};
    }
  }

  // ---------------------------------------------------------------------------
  // What callers get
  // ---------------------------------------------------------------------------

  /**
    What a call does: a plain read of a key that is in flight changes nothing;
    every other call starts a request of its own, which takes the controller and is
    open to later reads if it is a plain read itself, and with cancelPrevious
    aborts the request that held the controller, and no other.
   */
  lemma FetchExactly(app: App, call: Call)
    requires Tracked(app)
    ensures
      var next := Fetch(app, call);
      var plain := call.isGet && !call.cancelPrevious;
      if plain && call.key in app.inflight then next == app
      else
        && next.next == app.next + 1
        && next.outstanding.Keys == app.outstanding.Keys + {app.next} && app.next !in app.outstanding
        && next.outstanding[app.next] == Request(call.key, call.instance, plain, false)
        && next.controllers == app.controllers[call.key := app.next]
        && next.inflight == (if plain then app.inflight[call.key := app.next] else app.inflight)
        && Count(next, call.instance) == Count(app, call.instance) + 1
        && forall id <- app.outstanding ::
             next.outstanding[id] == app.outstanding[id].(aborted := app.outstanding[id].aborted
               || (call.cancelPrevious && call.key in app.controllers && app.controllers[call.key] == id))
  {
    if call.cancelPrevious {
      CancelExactly(app, call.key);
    }
    hide Cancel, Tracked;
    assert app.next !in app.outstanding by { NextIsNew(app); }
  }

  lemma NextIsNew(app: App)
    requires Tracked(app)
    ensures app.next !in app.outstanding
  {
  }

  /** Cancelling aborts the request that holds the key's controller, and no other. */
  lemma CancelExactly(app: App, key: RequestKey)
    requires Tracked(app)
    ensures
      var next := Cancel(app, key);
      && next == app.(controllers := next.controllers, outstanding := next.outstanding)
      && next.controllers == app.controllers - {key}
      && next.outstanding.Keys == app.outstanding.Keys
      && forall id <- app.outstanding ::
           next.outstanding[id] == app.outstanding[id].(aborted := app.outstanding[id].aborted
             || (key in app.controllers && app.controllers[key] == id))
  {
  }

  /** The request was started by a plain read of the key. */
  ghost predicate StartedByRead(app: App, steps: seq<Step>, id: RequestId, key: RequestKey)
    requires PossibleRun(app, steps)
    decreases |steps|
  {
    steps != [] &&
    (|| (steps[0].Fetched? && app.next == id && steps[0].call.isGet && !steps[0].call.cancelPrevious && steps[0].call.key == key)
     || StartedByRead(Apply(app, steps[0]), steps[1..], id, key))
  }

  lemma {:induction false} InflightStarted(app: App, steps: seq<Step>, key: RequestKey)
    requires PossibleRun(app, steps) && key in Run(app, steps).inflight
    ensures
      var id := Run(app, steps).inflight[key];
      (key in app.inflight && app.inflight[key] == id) || StartedByRead(app, steps, id, key)
    decreases |steps|
  {
    if steps != [] {
      InflightStarted(Apply(app, steps[0]), steps[1..], key);
    }
  }

  /** Only plain reads are shared: neither a write nor a call with cancelPrevious is joined or joins. */
  lemma OnlyReadsAreShared(steps: seq<Step>, call: Call)
    requires PossibleRun(IDLE, steps) && Joins(Run(IDLE, steps), call)
    ensures call.isGet && !call.cancelPrevious
    ensures StartedByRead(IDLE, steps, Run(IDLE, steps).inflight[call.key], call.key)
  {
    InflightStarted(IDLE, steps, call.key);
  }

  /** At most one coalesced read per key is on its way, and every later one joins it. */
  lemma OneReadPerKey(steps: seq<Step>, a: RequestId, b: RequestId)
    requires PossibleRun(IDLE, steps)
    requires a in Run(IDLE, steps).outstanding && b in Run(IDLE, steps).outstanding
    requires Run(IDLE, steps).outstanding[a].coalesced && Run(IDLE, steps).outstanding[b].coalesced
    requires Run(IDLE, steps).outstanding[a].key == Run(IDLE, steps).outstanding[b].key
    ensures a == b
    ensures forall instance ::
              var call := Call(instance, true, Run(IDLE, steps).outstanding[a].key, false);
              Joins(Run(IDLE, steps), call) && Fetch(Run(IDLE, steps), call) == Run(IDLE, steps)
  {
    IdleInvariant();
    InvariantRun(IDLE, steps);
  }

  /**
    The counter of an instance is the number of its requests on their way, so
    `pending` is exact and the clamp at zero never acts.
   */
  lemma PendingIsExact(steps: seq<Step>, instance: InstanceId)
    requires PossibleRun(IDLE, steps)
    ensures
      var app := Run(IDLE, steps);
      && Count(app, instance) == |OutstandingOf(app, instance)|
      && forall id <- OutstandingOf(app, instance) :: Count(app, instance) - 1 >= 0
  {
    IdleInvariant();
    InvariantRun(IDLE, steps);
    var app := Run(IDLE, steps);
    forall id | id in OutstandingOf(app, instance) ensures Count(app, instance) >= 1 {
      assert OutstandingOf(app, instance) != {};
    }
  }

  /** A request that is on its way and was not aborted. */
  predicate Alive(app: App, id: RequestId, key: RequestKey) {
    id in app.outstanding && app.outstanding[id].key == key && !app.outstanding[id].aborted
  }

  ghost predicate OneAlive(app: App, key: RequestKey) {
    forall a: RequestId, b: RequestId :: Alive(app, a, key) && Alive(app, b, key) ==> a == b
  }

  predicate Held(app: App, id: RequestId, key: RequestKey) {
    key in app.controllers && app.controllers[key] == id
  }

  ghost predicate HeldByController(app: App, key: RequestKey) {
    forall id: RequestId :: Alive(app, id, key) ==> Held(app, id, key)
  }

  /** The step adds no second live request of the key: a call joins, cancels its predecessor, or finds none. */
  ghost predicate Supersedes(app: App, step: Step, key: RequestKey) {
    step.Fetched? && step.call.key == key ==>
      Joins(app, step.call) || step.call.cancelPrevious || forall id: RequestId :: !Alive(app, id, key)
  }

  ghost predicate SupersedingRun(app: App, steps: seq<Step>, key: RequestKey)
    requires PossibleRun(app, steps)
    decreases |steps|
  {
    steps != [] ==> Supersedes(app, steps[0], key) && SupersedingRun(Apply(app, steps[0]), steps[1..], key)
  }

  ghost predicate AlwaysOneAlive(app: App, steps: seq<Step>, key: RequestKey)
    requires PossibleRun(app, steps)
    decreases |steps|
  {
    OneAlive(app, key) && (steps != [] ==> AlwaysOneAlive(Apply(app, steps[0]), steps[1..], key))
  }

  lemma HeldStep(app: App, step: Step, key: RequestKey)
    requires Tracked(app) && HeldByController(app, key) && Possible(app, step)
    ensures Supersedes(app, step, key) ==> HeldByController(Apply(app, step), key)
    ensures !Supersedes(app, step, key) ==> !OneAlive(Apply(app, step), key)
  {
    var next := Apply(app, step);
    if !Supersedes(app, step, key) {
      var id: RequestId :| Alive(app, id, key);
      assert Alive(next, id, key) && Alive(next, app.next, key) && id < app.next;
    } else {
      forall id: RequestId | Alive(next, id, key) ensures Held(next, id, key) {
        if Alive(app, id, key) {
          assert Held(app, id, key);
        }
      }
    }
  }

  /**
    The exact discipline: throughout a run at most one request of the key is
    alive if and only if every call for the key joins, cancels its predecessor,
    or finds no live request.
   */
  lemma {:induction false} OneAliveExactly(app: App, steps: seq<Step>, key: RequestKey)
    requires Tracked(app) && HeldByController(app, key) && PossibleRun(app, steps)
    ensures AlwaysOneAlive(app, steps, key) <==> SupersedingRun(app, steps, key)
    decreases |steps|
  {
    hide Tracked, HeldByController, Apply, Supersedes;
    assert OneAlive(app, key) by { HeldIsOne(app, key); }
    if steps != [] {
      TrackedStep(app, steps[0]);
      HeldStep(app, steps[0], key);
      if Supersedes(app, steps[0], key) {
        OneAliveExactly(Apply(app, steps[0]), steps[1..], key);
      }
    }
  }

  lemma HeldIsOne(app: App, key: RequestKey)
    requires HeldByController(app, key)
    ensures OneAlive(app, key)
  {
    forall a: RequestId, b: RequestId | Alive(app, a, key) && Alive(app, b, key) ensures a == b {
      assert Held(app, a, key) && Held(app, b, key);
    }
  }

  /** The same from the start of the app. */
  lemma OneAliveFromStart(steps: seq<Step>, key: RequestKey)
    requires PossibleRun(IDLE, steps)
    ensures AlwaysOneAlive(IDLE, steps, key) <==> SupersedingRun(IDLE, steps, key)
  {
    IdleInvariant();
    OneAliveExactly(IDLE, steps, key);
  }

  /** The key is only ever fetched with cancelPrevious. */
  ghost predicate OnlyCancelling(steps: seq<Step>, key: RequestKey) {
    forall step <- steps :: step.Fetched? && step.call.key == key ==> step.call.cancelPrevious
  }

  lemma {:induction false} HeldRun(app: App, steps: seq<Step>, key: RequestKey)
    requires Tracked(app) && HeldByController(app, key) && PossibleRun(app, steps) && OnlyCancelling(steps, key)
    ensures HeldByController(Run(app, steps), key)
    decreases |steps|
  {
    if steps != [] {
      TrackedStep(app, steps[0]);
      assert steps[0] in steps;
      HeldStep(app, steps[0], key);
      HeldRun(Apply(app, steps[0]), steps[1..], key);
    }
  }

  /** For such a key at most one request is on its way that was not aborted. */
  lemma OneLiveRequest(steps: seq<Step>, key: RequestKey, a: RequestId, b: RequestId)
    requires PossibleRun(IDLE, steps) && OnlyCancelling(steps, key)
    requires Alive(Run(IDLE, steps), a, key) && Alive(Run(IDLE, steps), b, key)
    ensures a == b
  {
    IdleInvariant();
    HeldRun(IDLE, steps, key);
    HeldIsOne(Run(IDLE, steps), key);
  }

  /** The step aborts the request: it cancels the key, and the request holds the key's controller. */
  predicate Aborts(app: App, step: Step, id: RequestId) {
    match step
    case Cancelled(key) => Held(app, id, key)
    case Fetched(call) => call.cancelPrevious && Held(app, id, call.key)
    case _ => false
  }

  ghost predicate AbortedOnTheWay(app: App, steps: seq<Step>, id: RequestId)
    requires PossibleRun(app, steps)
    decreases |steps|
  {
    steps != [] && (Aborts(app, steps[0], id) || AbortedOnTheWay(Apply(app, steps[0]), steps[1..], id))
  }

  predicate Aborted(app: App, id: RequestId) {
    id in app.outstanding && app.outstanding[id].aborted
  }

  lemma AbortedStep(app: App, step: Step, id: RequestId)
    requires Tracked(app) && Possible(app, step)
    ensures
      var next := Apply(app, step);
      id in next.outstanding ==> (Aborted(next, id) <==> Aborted(app, id) || Aborts(app, step, id))
  {
  }

  lemma {:induction false} GoneForGood(app: App, steps: seq<Step>, id: RequestId)
    requires Tracked(app) && PossibleRun(app, steps) && id < app.next && id !in app.outstanding
    ensures id !in Run(app, steps).outstanding
    decreases |steps|
  {
    if steps != [] {
      TrackedStep(app, steps[0]);
      GoneForGood(Apply(app, steps[0]), steps[1..], id);
    }
  }

  /**
    Exactly the requests are aborted whose key was cancelled while they still
    held its controller.
   */
  lemma {:induction false} AbortedExactly(app: App, steps: seq<Step>, id: RequestId)
    requires Tracked(app) && PossibleRun(app, steps) && id in Run(app, steps).outstanding
    ensures Aborted(Run(app, steps), id) <==> Aborted(app, id) || AbortedOnTheWay(app, steps, id)
    decreases |steps|
  {
    if steps != [] {
      var next := Apply(app, steps[0]);
      TrackedStep(app, steps[0]);
      AbortedExactly(next, steps[1..], id);
      if id in next.outstanding {
        AbortedStep(app, steps[0], id);
      } else {
        NotYetStarted(app, steps, id);
      }
    }
  }

  /** A request that is on its way at the end but not after the first step starts later. */
  lemma NotYetStarted(app: App, steps: seq<Step>, id: RequestId)
    requires Tracked(app) && PossibleRun(app, steps) && steps != []
    requires id in Run(app, steps).outstanding && id !in Apply(app, steps[0]).outstanding
    ensures id !in app.outstanding && !Aborts(app, steps[0], id)
  {
    TrackedStep(app, steps[0]);
    if id < Apply(app, steps[0]).next {
      GoneForGood(Apply(app, steps[0]), steps[1..], id);
    }
  }

  lemma {:induction false} NeverHeldAgain(app: App, steps: seq<Step>, id: RequestId, key: RequestKey)
    requires Tracked(app) && PossibleRun(app, steps) && Alive(app, id, key) && !Held(app, id, key)
    ensures !Aborted(Run(app, steps), id)
    decreases |steps|
  {
    if steps != [] {
      var next := Apply(app, steps[0]);
      TrackedStep(app, steps[0]);
      if id in next.outstanding {
        AbortedStep(app, steps[0], id);
        assert Alive(next, id, key) && !Held(next, id, key);
        NeverHeldAgain(next, steps[1..], id, key);
      } else {
        GoneForGood(next, steps[1..], id);
      }
    }
  }

  ghost predicate AbortedBy(app: App, steps: seq<Step>, id: RequestId) {
    PossibleRun(app, steps) && Aborted(Run(app, steps), id)
  }

  /**
    A live request can still be aborted, by whatever run, exactly while it holds
    the controller of its key: one whose controller was taken over by a call
    without cancelPrevious runs to its end.
   */
  lemma OrphanedExactly(app: App, id: RequestId, key: RequestKey)
    requires Tracked(app) && Alive(app, id, key)
    ensures (exists steps: seq<Step> :: AbortedBy(app, steps, id)) <==> Held(app, id, key)
  {
    if Held(app, id, key) {
      var steps := [Cancelled(key)];
      assert steps[1..] == [];
      assert Run(app, steps) == Cancel(app, key);
      assert AbortedBy(app, steps, id);
    } else {
      forall steps: seq<Step> | PossibleRun(app, steps) ensures !AbortedBy(app, steps, id) {
        NeverHeldAgain(app, steps, id, key);
      }
    }
  }

  /** And it loses the controller to exactly the calls that start without cancelling. */
  lemma TakenOver(app: App, call: Call, id: RequestId)
    requires Tracked(app) && Alive(app, id, call.key) && Held(app, id, call.key)
    ensures Alive(Fetch(app, call), id, call.key) && !Held(Fetch(app, call), id, call.key)
       <==> !Joins(app, call) && !call.cancelPrevious
  {
  }

  /** One such call in the middle of a run: the first request goes on although its key was cancelled. */
  lemma OrphanedRequest(app: App, key: RequestKey, first: InstanceId, second: InstanceId)
    requires Tracked(app)
    ensures
      var a, b := app.next, app.next + 1;
      var later := Cancel(Fetch(Fetch(app, Call(first, false, key, false)), Call(second, false, key, false)), key);
      && Alive(later, a, key)
      && b in later.outstanding && later.outstanding[b].key == key && later.outstanding[b].aborted
      && key !in later.controllers
  {
  }

  /** The key is never cancelled, neither by cancelPrevious nor by a call of cancelRequest. */
  ghost predicate NeverCancelled(steps: seq<Step>, key: RequestKey) {
    forall step <- steps ::
      && (step.Fetched? && step.call.key == key ==> !step.call.cancelPrevious)
      && (step.Cancelled? ==> step.key != key)
  }

  ghost predicate NoneAborted(app: App, key: RequestKey) {
    forall id <- app.outstanding :: app.outstanding[id].key == key ==> !app.outstanding[id].aborted
  }

  lemma {:induction false} NoneAbortedRun(app: App, steps: seq<Step>, key: RequestKey)
    requires Tracked(app) && NoneAborted(app, key) && PossibleRun(app, steps) && NeverCancelled(steps, key)
    ensures NoneAborted(Run(app, steps), key)
    decreases |steps|
  {
    if steps != [] {
      TrackedStep(app, steps[0]);
      assert steps[0] in steps;
      NoneAbortedRun(Apply(app, steps[0]), steps[1..], key);
    }
  }

  /** Callers that join a read of a key nobody cancels never join an aborted request. */
  lemma JoinedIsAlive(steps: seq<Step>, call: Call)
    requires PossibleRun(IDLE, steps) && NeverCancelled(steps, call.key) && Joins(Run(IDLE, steps), call)
    ensures
      var app := Run(IDLE, steps);
      app.inflight[call.key] in app.outstanding ==> !app.outstanding[app.inflight[call.key]].aborted
  {
    IdleInvariant();
    InvariantRun(IDLE, steps);
    NoneAbortedRun(IDLE, steps, call.key);
  }

  /**
    An identical read joins the request in flight even when it is aborted: what
    it joins is aborted exactly when its key was cancelled while it still held
    the controller.
   */
  lemma JoinedExactly(steps: seq<Step>, call: Call)
    requires PossibleRun(IDLE, steps) && Joins(Run(IDLE, steps), call)
    ensures
      var app := Run(IDLE, steps);
      var joined := app.inflight[call.key];
      joined in app.outstanding ==> (Aborted(app, joined) <==> AbortedOnTheWay(IDLE, steps, joined))
  {
    IdleInvariant();
    var joined := Run(IDLE, steps).inflight[call.key];
    if joined in Run(IDLE, steps).outstanding {
      AbortedExactly(IDLE, steps, joined);
    }
  }

  /** The shortest such run: once cancelled, a read is still joined until its clean-up has run. */
  lemma JoinsAborted(call: Call)
    requires Coalesces(call)
    ensures
      var app := Cancel(Fetch(IDLE, call), call.key);
      && Joins(app, call)
      && app.inflight[call.key] in app.outstanding && app.outstanding[app.inflight[call.key]].aborted
  {
  }

  // ---------------------------------------------------------------------------
  // The composable as it runs
  // ---------------------------------------------------------------------------

  class Requests {
    var controllers: map<RequestKey, RequestId>
    var inflight: map<RequestKey, RequestId>
    var active: map<InstanceId, int>
    var outstanding: map<RequestId, Request>
    var unsettled: map<RequestId, RequestKey>
    var next: RequestId

    constructor ()
      ensures AsApp() == IDLE
    {
      controllers, inflight, active, outstanding, unsettled, next := map[], map[], map[], map[], map[], 0;
    }

    ghost function AsApp(): App
      reads this
    {
      App(controllers, inflight, active, outstanding, unsettled, next)
    }

    /** `cancelRequest`. */
    method CancelRequest(key: RequestKey)
      modifies this
      ensures AsApp() == Cancel(old(AsApp()), key)
    {
      if key in controllers {
        var id := controllers[key];
        if id in outstanding {
          outstanding := outstanding[id := outstanding[id].(aborted := true)];
        }
        controllers := controllers - {key};
      }
    }

    /** `fetch` up to the await of the network: the request the caller now waits for. */
    method FetchRequest(call: Call) returns (id: RequestId)
      modifies this
      ensures AsApp() == Fetch(old(AsApp()), call)
      ensures id == if old(Joins(AsApp(), call)) then old(inflight)[call.key] else old(next)
    {
      var shouldCoalesce := call.isGet && !call.cancelPrevious;
      if shouldCoalesce && call.key in inflight {
        return inflight[call.key];
      }
      if call.cancelPrevious {
        CancelRequest(call.key);
      }
      id := next;
      next := next + 1;
      controllers := controllers[call.key := id];
      active := active[call.instance := (if call.instance in active then active[call.instance] else 0) + 1];
      outstanding := outstanding[id := Request(call.key, call.instance, shouldCoalesce, false)];
      unsettled := unsettled[id := call.key];
      if shouldCoalesce {
        inflight := inflight[call.key := id];
      }
    }

    /** The inner `finally` of a request. */
    method SettleRequest(id: RequestId)
      requires id in outstanding
      modifies this
      ensures AsApp() == Settle(old(AsApp()), id)
    {
      var request := outstanding[id];
      outstanding := outstanding - {id};
      if request.key in controllers && controllers[request.key] == id {
        controllers := controllers - {request.key};
      }
      var count := if request.instance in active then active[request.instance] else 0;
      active := active[request.instance := Max(0, count - 1)];
    }

    /** The outer `finally` of a request. */
    method ForgetRequest(id: RequestId)
      requires id in unsettled
      modifies this
      ensures AsApp() == Forget(old(AsApp()), id)
    {
      var key := unsettled[id];
      unsettled := unsettled - {id};
      if key in inflight && inflight[key] == id {
        inflight := inflight - {key};
      }
    }
  }
}
