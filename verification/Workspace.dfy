/**
  frontend/app/composables/workspace/useEntityWorkspace.ts: the cache-aware list
  loader, in which only the newest of several overlapping loads may write.
 */
module Workspace {
  import opened Wrappers
  import opened ListCache

  datatype Query = Query(page: int, limit: int, view: string, rest: string)

  datatype Config = Config(key: string, stages: seq<string>, numbersRows: bool)

  /** `workspaceCacheKey`: the identity, the list and the query. */
  datatype Key = Key(user: string, list: string, query: Query)

  datatype Row = Row(id: string, rowNumber: Option<int>)

  /** Rows together with the request they answer and the number of the load that asked for them. */
  datatype Page = Page(rows: seq<Row>, total: int, answers: Option<Key>, asked: nat)

  const BLANK := Page([], 0, None, 0)

  datatype Column = Column(stage: string, rows: seq<Row>, total: int)

  /** What an outstanding load brings: a list, the columns in order of arrival, or an error. */
  datatype Reply =
    | Listed(page: Page)
    | Staged(columns: seq<Column>, answers: Key, asked: nat)
    | Failure(message: string)

  /**
    An outstanding load: the key it computed when it started, what it asked for,
    and its number among all loads of the browser session.
   */
  datatype Load = Load(key: Key, kanban: bool, number: nat)

  /** One mounted list; `latest` is the key of the newest load. */
  datatype View = View(
    config: Config,
    query: Query,
    requestToken: nat,
    shown: Page,
    columns: seq<Column>,
    pending: bool,
    error: Option<string>,
    outstanding: map<nat, Load>,
    latest: Option<Key>)

  type Store = map<Key, Entry<Page>>

  function KeyOf(user: Option<string>, config: Config, query: Query): Key {
    Key(user.GetOr("anon"), config.key, query)
  }

  predicate IsKanban(config: Config, query: Query) {
    query.view == "kanban" && config.stages != []
  }

  predicate Refreshes(config: Config, stale: set<string>, force: bool) {
    force || (config.key != "" && config.key in stale)
  }

  // ---------------------------------------------------------------------------
  // The two halves of `loadWorkspace`, before and after the awaited reply
  // ---------------------------------------------------------------------------

  function Begin(view: View, user: Option<string>, store: Store, stale: set<string>, force: bool, now: int, number: nat): View {
    var token := view.requestToken + 1;
    var key := KeyOf(user, view.config, view.query);
    var kanban := IsKanban(view.config, view.query);
    var hit := if kanban || Refreshes(view.config, stale, force) then None else Lookup(store, key, now);
    view.(requestToken := token,
          latest := Some(key),
          error := None,
          shown := if hit.Some? then hit.value.data else view.shown,
          pending := hit.None?,
          outstanding := if hit.Some? && hit.value.isFresh then view.outstanding
                         else view.outstanding[token := Load(key, kanban, number)])
  }

  function Numbered(rows: seq<Row>, query: Query): seq<Row> {
    seq(|rows|, i requires 0 <= i < |rows| => rows[i].(rowNumber := Some((query.page - 1) * query.limit + i + 1)))
  }

  function Decorated(page: Page, config: Config, query: Query): Page {
    if config.numbersRows then page.(rows := Numbered(page.rows, query)) else page
  }

  function Flattened(columns: seq<Column>): seq<Row> {
    if columns == [] then [] else columns[0].rows + Flattened(columns[1..])
  }

  function Totalled(columns: seq<Column>): int {
    if columns == [] then 0 else columns[0].total + Totalled(columns[1..])
  }

  function Settle(view: View, token: nat, reply: Reply): View {
    var rest := view.outstanding - {token};
    if token != view.requestToken then view.(outstanding := rest)
    else
      var done := view.(outstanding := rest, pending := false);
      match reply
      case Failure(message) => done.(error := Some(if message == "" then "Failed to load" else message))
      case Listed(page) => done.(shown := Decorated(page, view.config, view.query))
      case Staged(columns, answers, asked) =>
        done.(columns := columns, shown := Page(Flattened(columns), Totalled(columns), Some(answers), asked))
  }

  function SettleStore(view: View, store: Store, token: nat, reply: Reply, now: int): Store {
    if token == view.requestToken && token in view.outstanding && reply.Listed?
    then store[view.outstanding[token].key := Entry(Decorated(reply.page, view.config, view.query), now)]
    else store
  }

  /** A reply answers the load it is for. */
  predicate Answers(load: Load, reply: Reply) {
    match reply
    case Failure(_) => true
    case Listed(page) => !load.kanban && page.answers == Some(load.key) && page.asked == load.number
    case Staged(_, answers, asked) => load.kanban && answers == load.key && asked == load.number
  }

  /** `consumeListStale` for a single key. */
  method ConsumeMark(stale: StaleKeys, key: string) returns (hit: bool)
    modifies stale
    ensures hit <==> key != "" && key in old(stale.keys)
    ensures stale.keys == if key == "" then old(stale.keys) else old(stale.keys) - {key}
  {
    hit := stale.Consume([key]);
  }

  /** The composable as it runs. */
  class EntityWorkspace {
    const config: Config
    var query: Query
    var requestToken: nat
    var shown: Page
    var columns: seq<Column>
    var pending: bool
    var error: Option<string>
    var outstanding: map<nat, Load>
    ghost var latest: Option<Key>

    constructor (config: Config, query: Query)
      ensures this.config == config
      ensures AsView() == View(config, query, 0, BLANK, [], false, None, map[], None)
    {
      this.config, this.query := config, query;
      requestToken, shown, columns, pending, error, outstanding, latest := 0, BLANK, [], false, None, map[], None;
    }

    ghost function AsView(): View
      reads this
    {
      View(config, query, requestToken, shown, columns, pending, error, outstanding, latest)
    }

    /** `loadWorkspace` up to its first await; `sent` says whether a request left. */
    method BeginLoad(user: Option<string>, cache: Cache<Key, Page>, stale: StaleKeys, force: bool, number: nat)
      returns (sent: bool)
      requires requestToken + 1 !in outstanding
      modifies this, stale
      ensures AsView() == Begin(old(AsView()), user, cache.store, old(stale.keys), force, cache.now, number)
      ensures stale.keys == if force || config.key == "" then old(stale.keys) else old(stale.keys) - {config.key}
      ensures sent <==> requestToken in outstanding
    {
      hide KeyOf, Lookup, IsKanban;
      requestToken := requestToken + 1;
      var token := requestToken;
      var isKanban := IsKanban(config, query);
      var key := KeyOf(user, config, query);
      latest := Some(key);
      var mustRefresh := force;
      if !force {
        mustRefresh := ConsumeMark(stale, config.key);
      }
      error := None;
      if !isKanban && !mustRefresh {
        var cached := cache.Read(key);
        if cached.Some? {
          shown := cached.value.data;
          pending := false;
          if cached.value.isFresh {
            return false;
          }
        } else {
          pending := true;
        }
      } else {
        pending := true;
      }
      outstanding := outstanding[token := Load(key, isKanban, number)];
      return true;
    }

    /** The rest of `loadWorkspace`, once the reply is there. */
    method SettleLoad(cache: Cache<Key, Page>, token: nat, reply: Reply)
      requires token in outstanding && Answers(outstanding[token], reply)
      modifies this, cache`store
      ensures AsView() == Settle(old(AsView()), token, reply)
      ensures cache.store == SettleStore(old(AsView()), old(cache.store), token, reply, cache.now)
      ensures outstanding == old(outstanding) - {token} && requestToken == old(requestToken)
      ensures token != requestToken || reply.Failure? ==>
                shown == old(shown) && columns == old(columns) && cache.store == old(cache.store)
      ensures token != requestToken ==> pending == old(pending) && error == old(error)
      ensures token == requestToken ==> !pending
      ensures token == requestToken && reply.Failure? ==>
                error == Some(if reply.message == "" then "Failed to load" else reply.message)
      ensures token == requestToken && reply.Listed? && !config.numbersRows ==>
                shown == reply.page && cache.store == old(cache.store)[old(outstanding)[token].key := Entry(reply.page, cache.now)]
    {
      var key := outstanding[token].key;
      outstanding := outstanding - {token};
      match reply {
        case Staged(arrived, answers, asked) =>
          if token == requestToken {
            columns := arrived;
            shown := Page(Flattened(arrived), Totalled(arrived), Some(answers), asked);
          }
        case Listed(page) =>
          if token == requestToken {
            shown := Decorated(page, config, query);
            cache.Write(key, shown);
          }
        case Failure(message) =>
          if token == requestToken {
            error := Some(if message == "" then "Failed to load" else message);
          }
      }
      if token == requestToken {
        pending := false;
      }
    }
  }

  // ---------------------------------------------------------------------------
  // Many lists over one cache
  // ---------------------------------------------------------------------------

  type ViewId = nat

  /** `loads` counts the loads that have been started. */
  datatype World = World(
    now: int,
    user: Option<string>,
    store: Store,
    stale: set<string>,
    views: map<ViewId, View>,
    loads: nat)

  datatype Step =
    | Elapse(ms: nat)
    | Mount(id: ViewId, config: Config, query: Query)
    | Navigate(id: ViewId, query: Query)
    | StartLoad(id: ViewId, force: bool)
    | Arrive(id: ViewId, token: nat, reply: Reply)
    | MarkStale(keys: set<string>)
    | SignIn(user: string)
    | SignOut

  predicate Possible(w: World, step: Step) {
    match step
    case Mount(id, _, _) => id !in w.views
    case Navigate(id, _) => id in w.views
    case StartLoad(id, _) => id in w.views
    case Arrive(id, token, reply) =>
      id in w.views && token in w.views[id].outstanding && Answers(w.views[id].outstanding[token], reply)
    case _ => true
  }

  function Apply(w: World, step: Step): World
    requires Possible(w, step)
  {
    match step
    case Elapse(ms) => w.(now := w.now + ms)
    case Mount(id, config, query) =>
      w.(views := w.views[id := View(config, query, 0, BLANK, [], false, None, map[], None)])
    case Navigate(id, query) => w.(views := w.views[id := w.views[id].(query := query)])
    case StartLoad(id, force) =>
      w.(views := w.views[id := Begin(w.views[id], w.user, w.store, w.stale, force, w.now, w.loads + 1)],
         loads := w.loads + 1,
         stale := if force || w.views[id].config.key == "" then w.stale else w.stale - {w.views[id].config.key})
    case Arrive(id, token, reply) =>
      w.(views := w.views[id := Settle(w.views[id], token, reply)],
         store := SettleStore(w.views[id], w.store, token, reply, w.now))
    case MarkStale(keys) => w.(stale := w.stale + (keys - {""}))
    case SignIn(user) => w.(user := Some(user))
    case SignOut => w.(user := None, store := map[])
  }

  ghost predicate PossibleRun(w: World, steps: seq<Step>)
    decreases |steps|
  {
    steps != [] ==> Possible(w, steps[0]) && PossibleRun(Apply(w, steps[0]), steps[1..])
  }

  function Run(w: World, steps: seq<Step>): World
    requires PossibleRun(w, steps)
    decreases |steps|
  {
    if steps == [] then w else Run(Apply(w, steps[0]), steps[1..])
  }

  // --- superseded loads --------------------------------------------------------

  /** A newer load of the list has been started. */
  predicate Superseded(w: World, id: ViewId, token: nat) {
    id in w.views && token < w.views[id].requestToken
  }

  /** The run without the reply to one load. */
  function Erased(steps: seq<Step>, id: ViewId, token: nat): seq<Step> {
    if steps == [] then []
    else (if Replies(steps[0], id, token) then [] else [steps[0]]) + Erased(steps[1..], id, token)
  }

  predicate Replies(step: Step, id: ViewId, token: nat) {
    step.Arrive? && step.id == id && step.token == token
  }

  function Without(view: View, token: nat): View {
    view.(outstanding := view.outstanding - {token})
  }

  /**
    The worlds agree on everything but whether that load is still on its way:
    on all rows, totals, errors and spinners, on the cache and on the marks.
   */
  ghost predicate Alike(a: World, b: World, id: ViewId, token: nat) {
    && a.now == b.now && a.user == b.user && a.store == b.store && a.stale == b.stale && a.loads == b.loads
    && a.views.Keys == b.views.Keys
    && (forall other <- a.views :: other != id ==> a.views[other] == b.views[other])
    && Superseded(a, id, token) && Superseded(b, id, token)
    && Without(a.views[id], token) == Without(b.views[id], token)
  }

  lemma BeginWithout(a: View, b: View, token: nat, user: Option<string>, store: Store, stale: set<string>,
                     force: bool, now: int, number: nat)
    requires token < a.requestToken && Without(a, token) == Without(b, token)
    ensures Without(Begin(a, user, store, stale, force, now, number), token)
         == Without(Begin(b, user, store, stale, force, now, number), token)
  {
    hide Lookup, KeyOf, IsKanban, Refreshes;
    var next, load := a.requestToken + 1, Load(KeyOf(user, a.config, a.query), IsKanban(a.config, a.query), number);
    assert a.outstanding[next := load] - {token} == (a.outstanding - {token})[next := load];
    assert b.outstanding[next := load] - {token} == (b.outstanding - {token})[next := load];
  }

  lemma SettleWithout(a: View, b: View, token: nat, other: nat, reply: Reply)
    requires token != other && Without(a, token) == Without(b, token)
    ensures Without(Settle(a, other, reply), token) == Without(Settle(b, other, reply), token)
    ensures other in a.outstanding <==> other in b.outstanding
    ensures other in a.outstanding ==> a.outstanding[other] == b.outstanding[other]
  {
    assert a.outstanding - {other} - {token} == a.outstanding - {token} - {other};
    assert b.outstanding - {other} - {token} == b.outstanding - {token} - {other};
    assert other in a.outstanding <==> other in a.outstanding - {token};
    assert other in b.outstanding <==> other in b.outstanding - {token};
    assert other in a.outstanding ==> a.outstanding[other] == (a.outstanding - {token})[other];
    assert other in b.outstanding ==> b.outstanding[other] == (b.outstanding - {token})[other];
  }

  lemma AlikeStep(a: World, b: World, step: Step, id: ViewId, token: nat)
    requires Alike(a, b, id, token) && Possible(a, step) && !Replies(step, id, token)
    ensures Possible(b, step) && Alike(Apply(a, step), Apply(b, step), id, token)
  {
    hide Apply, Without, Superseded;
    if step.StartLoad? && step.id == id {
      RestartAlike(a, b, step.force, id, token);
    } else if step.Arrive? && step.id == id {
      ArriveAlike(a, b, step.token, step.reply, id, token);
    } else if step.Navigate? && step.id == id {
      NavigateAlike(a, b, step.query, id, token);
    } else {
      ElsewhereAlike(a, b, step, id, token);
    }
  }

  lemma ElsewhereAlike(a: World, b: World, step: Step, id: ViewId, token: nat)
    requires Alike(a, b, id, token) && Possible(a, step)
    requires step.StartLoad? || step.Arrive? || step.Navigate? ==> step.id != id
    ensures Possible(b, step) && Alike(Apply(a, step), Apply(b, step), id, token)
  {
    hide Begin, Settle, Without, SettleStore;
  }

  lemma NavigateAlike(a: World, b: World, query: Query, id: ViewId, token: nat)
    requires Alike(a, b, id, token)
    ensures Alike(Apply(a, Navigate(id, query)), Apply(b, Navigate(id, query)), id, token)
  {
  }

  lemma BeginCounts(view: View, user: Option<string>, store: Store, stale: set<string>, force: bool, now: int, number: nat)
    ensures Begin(view, user, store, stale, force, now, number).requestToken == view.requestToken + 1
  {
  }

  lemma SameList(a: View, b: View, token: nat)
    requires Without(a, token) == Without(b, token)
    ensures a.config == b.config
  {
  }

  lemma RestartAlike(a: World, b: World, force: bool, id: ViewId, token: nat)
    requires Alike(a, b, id, token)
    ensures Alike(Apply(a, StartLoad(id, force)), Apply(b, StartLoad(id, force)), id, token)
  {
    hide Begin, Without;
    BeginWithout(a.views[id], b.views[id], token, a.user, a.store, a.stale, force, a.now, a.loads + 1);
    BeginCounts(a.views[id], a.user, a.store, a.stale, force, a.now, a.loads + 1);
    BeginCounts(b.views[id], b.user, b.store, b.stale, force, b.now, b.loads + 1);
    SameList(a.views[id], b.views[id], token);
  }

  lemma ArriveAlike(a: World, b: World, arrived: nat, reply: Reply, id: ViewId, token: nat)
    requires Alike(a, b, id, token) && arrived != token && Possible(a, Arrive(id, arrived, reply))
    ensures Possible(b, Arrive(id, arrived, reply))
    ensures Alike(Apply(a, Arrive(id, arrived, reply)), Apply(b, Arrive(id, arrived, reply)), id, token)
  {
    SettleWithout(a.views[id], b.views[id], token, arrived, reply);
  }

  lemma ReplyAlike(a: World, b: World, id: ViewId, token: nat, reply: Reply)
    requires Alike(a, b, id, token) && Possible(a, Arrive(id, token, reply))
    ensures Alike(Apply(a, Arrive(id, token, reply)), b, id, token)
  {
    assert a.views[id].outstanding - {token} - {token} == a.views[id].outstanding - {token};
  }

  lemma {:induction false} ErasedRun(a: World, b: World, steps: seq<Step>, id: ViewId, token: nat)
    requires Alike(a, b, id, token) && PossibleRun(a, steps)
    ensures PossibleRun(b, Erased(steps, id, token))
    ensures Alike(Run(a, steps), Run(b, Erased(steps, id, token)), id, token)
    decreases |steps|
  {
    hide Alike, Apply, Possible;
    if steps != [] {
      var step, rest := steps[0], Erased(steps[1..], id, token);
      if Replies(step, id, token) {
        ReplyAlike(a, b, id, token, step.reply);
        ErasedRun(Apply(a, step), b, steps[1..], id, token);
        assert [] + rest == rest;
      } else {
        AlikeStep(a, b, step, id, token);
        ErasedRun(Apply(a, step), Apply(b, step), steps[1..], id, token);
        assert Erased(steps, id, token) == [step] + rest;
        assert ([step] + rest)[1..] == rest;
      }
    }
  }

  /**
    From the moment a load is superseded its reply does not matter: erased from
    the run, it leaves the rows, totals, errors and spinners of every list, the
    cache and the marks as they are.
   */
  lemma SupersededChangesNothing(w: World, steps: seq<Step>, id: ViewId, token: nat)
    requires Superseded(w, id, token) && PossibleRun(w, steps)
    ensures PossibleRun(w, Erased(steps, id, token))
    ensures Alike(Run(w, steps), Run(w, Erased(steps, id, token)), id, token)
  {
    ErasedRun(w, w, steps, id, token);
  }

  // --- what is on screen ---------------------------------------------------------

  ghost predicate Coherent(view: View) {
    && (forall token <- view.outstanding :: 0 < token <= view.requestToken)
    && (view.pending ==> view.requestToken in view.outstanding)
    && (view.requestToken in view.outstanding ==> Some(view.outstanding[view.requestToken].key) == view.latest)
    && (view.requestToken > 0 && !view.pending && view.error.None? ==> view.shown.answers == view.latest)
    && (view.requestToken in view.outstanding ==> view.error.None?)
  }

  ghost predicate Honest(store: Store) {
    forall key <- store :: store[key].data.answers == Some(key)
  }

  ghost predicate Sound(w: World) {
    Honest(w.store) && forall id <- w.views :: Coherent(w.views[id])
  }

  lemma SoundStep(w: World, step: Step)
    requires Sound(w) && Possible(w, step)
    ensures Sound(Apply(w, step))
  {
  }

  lemma {:induction false} SoundRun(w: World, steps: seq<Step>)
    requires Sound(w) && PossibleRun(w, steps)
    ensures Sound(Run(w, steps))
    decreases |steps|
  {
    if steps != [] {
      SoundStep(w, steps[0]);
      SoundRun(Apply(w, steps[0]), steps[1..]);
    }
  }

  /** An empty browser session. */
  ghost predicate Started(w: World) {
    w.store == map[] && w.views == map[]
  }

  /**
    For every interleaving: every cached page answers the user and query of its
    key; the spinner shows only while the newest load is on its way; and without
    spinner and error the rows on screen answer the newest load.
   */
  lemma LatestWins(w: World, steps: seq<Step>, id: ViewId)
    requires Started(w) && PossibleRun(w, steps) && id in Run(w, steps).views
    ensures
      var end := Run(w, steps);
      var view := end.views[id];
      && (forall key <- end.store :: end.store[key].data.answers == Some(key))
      && (view.pending ==> view.requestToken in view.outstanding && Some(view.outstanding[view.requestToken].key) == view.latest)
      && (view.outstanding == map[] ==> !view.pending)
      && (view.requestToken > 0 && !view.pending && view.error.None? ==> view.shown.answers == view.latest)
  {
    SoundRun(w, steps);
    assert Coherent(Run(w, steps).views[id]);
  }

  /**
    A load asks for the identity, list and query as they are, and what it paints
    from the cache was fetched for exactly those.
   */
  lemma PaintedForSelf(w: World, id: ViewId, force: bool)
    requires Sound(w) && id in w.views
    ensures
      var view := Apply(w, StartLoad(id, force)).views[id];
      var own := Key(if w.user.Some? then w.user.value else "anon", view.config.key, view.query);
      && view.latest == Some(own)
      && (view.requestToken in view.outstanding ==> view.outstanding[view.requestToken].key == own)
      && (view.shown == w.views[id].shown || view.shown.answers == Some(own))
  {
    assert w.views[id].requestToken + 1 !in w.views[id].outstanding;
  }

  /** Every cached page has been written since, and time goes on. */
  ghost predicate WrittenSince(w: World, since: int) {
    since <= w.now && forall key <- w.store :: since <= w.store[key].ts
  }

  lemma {:induction false} WrittenSinceRun(w: World, steps: seq<Step>, since: int)
    requires WrittenSince(w, since) && PossibleRun(w, steps)
    ensures WrittenSince(Run(w, steps), since)
    decreases |steps|
  {
    if steps != [] {
      WrittenSinceRun(Apply(w, steps[0]), steps[1..], since);
    }
  }

  /**
    Signing out forgets: whatever follows, every page in the cache was written
    since; until the first of them, every load of every list asks the server.
   */
  lemma SignedOutForgets(w: World, steps: seq<Step>, id: ViewId, force: bool)
    requires PossibleRun(Apply(w, SignOut), steps)
    ensures WrittenSince(Run(Apply(w, SignOut), steps), w.now)
    ensures id in w.views && Coherent(w.views[id]) ==>
              var view := Apply(Apply(w, SignOut), StartLoad(id, force)).views[id];
              view.requestToken in view.outstanding && view.shown == w.views[id].shown
  {
    WrittenSinceRun(Apply(w, SignOut), steps, w.now);
  }

  // --- what a mark achieves -------------------------------------------------------

  /** Every number carried by rows or loads has been given out. */
  ghost predicate Dated(w: World) {
    && (forall key <- w.store :: w.store[key].data.asked <= w.loads)
    && (forall id <- w.views :: w.views[id].shown.asked <= w.loads)
    && (forall id <- w.views, token <- w.views[id].outstanding :: w.views[id].outstanding[token].number <= w.loads)
  }

  lemma DatedStep(w: World, step: Step)
    requires Dated(w) && Possible(w, step)
    ensures Dated(Apply(w, step)) && w.loads <= Apply(w, step).loads
  {
  }

  lemma {:induction false} DatedRun(w: World, steps: seq<Step>)
    requires Dated(w) && PossibleRun(w, steps)
    ensures Dated(Run(w, steps)) && w.loads <= Run(w, steps).loads
    decreases |steps|
  {
    hide Dated, Apply;
    if steps != [] {
      DatedStep(w, steps[0]);
      DatedRun(Apply(w, steps[0]), steps[1..]);
    }
  }

  /** The cache entry a load would paint. */
  function Usable(w: World, id: ViewId, force: bool): Option<Hit<Page>>
    requires id in w.views
  {
    var view := w.views[id];
    if IsKanban(view.config, view.query) || Refreshes(view.config, w.stale, force) then None
    else Lookup(w.store, KeyOf(w.user, view.config, view.query), w.now)
  }

  /** A load is sent exactly when the list is a kanban board, it is forced, it is marked, or no entry younger than 30 seconds is there. */
  lemma SentExactly(w: World, id: ViewId, force: bool)
    requires id in w.views && Coherent(w.views[id])
    ensures
      var view, next := w.views[id], Apply(w, StartLoad(id, force)).views[id];
      var own := Key(if w.user.Some? then w.user.value else "anon", view.config.key, view.query);
      next.requestToken in next.outstanding <==>
        || (view.query.view == "kanban" && view.config.stages != [])
        || force
        || (view.config.key != "" && view.config.key in w.stale)
        || own !in w.store || w.store[own].ts + 30_000 <= w.now
  {
    assert w.views[id].requestToken + 1 !in w.views[id].outstanding;
  }

  /** No load of the list is started, so its newest stays the newest. */
  predicate KeepsNewest(steps: seq<Step>, id: ViewId) {
    forall step <- steps :: step.StartLoad? ==> step.id != id
  }

  /** The load's answer arrives, with rows. */
  predicate AnsweredIn(steps: seq<Step>, id: ViewId, token: nat) {
    exists i :: 0 <= i < |steps| && AnswersWithRows(steps[i], id, token)
  }

  predicate AnswersWithRows(step: Step, id: ViewId, token: nat) {
    Replies(step, id, token) && !step.reply.Failure?
  }

  lemma AnsweredInFirst(steps: seq<Step>, id: ViewId, token: nat)
    requires steps != []
    ensures AnsweredIn(steps, id, token) <==> AnswersWithRows(steps[0], id, token) || AnsweredIn(steps[1..], id, token)
  {
    if AnsweredIn(steps, id, token) && !AnswersWithRows(steps[0], id, token) {
      var i :| 0 <= i < |steps| && AnswersWithRows(steps[i], id, token);
      assert steps[1..][i - 1] == steps[i];
    }
    if AnsweredIn(steps[1..], id, token) {
      var i :| 0 <= i < |steps[1..]| && AnswersWithRows(steps[1..][i], id, token);
      assert steps[i + 1] == steps[1..][i];
    }
  }

  lemma NewestStep(w: World, step: Step, id: ViewId)
    requires id in w.views && Possible(w, step) && (step.StartLoad? ==> step.id != id)
    ensures
      var view := w.views[id];
      var token := view.requestToken;
      && id in Apply(w, step).views
      && var next := Apply(w, step).views[id];
      && next.requestToken == token
      && (token in next.outstanding ==> token in view.outstanding && next.outstanding[token] == view.outstanding[token])
      && (if AnswersWithRows(step, id, token)
          then token in view.outstanding && token !in next.outstanding && next.shown.asked == view.outstanding[token].number
          else next.shown == view.shown)
  {
  }

  /** While a load stays the newest, the rows on screen change exactly once if its answer arrives, and never if not. */
  lemma {:induction false} NewestRun(w: World, steps: seq<Step>, id: ViewId)
    requires id in w.views && PossibleRun(w, steps) && KeepsNewest(steps, id)
    ensures
      var view := w.views[id];
      var token := view.requestToken;
      && id in Run(w, steps).views
      && var end := Run(w, steps).views[id];
      && (if AnsweredIn(steps, id, token)
          then token in view.outstanding && end.shown.asked == view.outstanding[token].number
          else end.shown == view.shown)
    decreases |steps|
  {
    hide Apply, AnswersWithRows, AnsweredIn;
    if steps != [] {
      var token := w.views[id].requestToken;
      assert steps[0] in steps;
      AnsweredInFirst(steps, id, token);
      NewestStep(w, steps[0], id);
      NewestRun(Apply(w, steps[0]), steps[1..], id);
    } else {
      NothingAnswered(id, w.views[id].requestToken);
    }
  }

  lemma NothingAnswered(id: ViewId, token: nat)
    ensures !AnsweredIn([], id, token)
  {
  }

  /**
    The account of what is on screen while a load stays the newest: the rows come
    from an answer asked for at number `since` or later if and only if that load
    has been answered with rows, or what it painted (or left, when it found
    nothing to paint) came from such an answer.
   */
  lemma RenewedExactly(w: World, id: ViewId, force: bool, steps: seq<Step>, since: nat)
    requires id in w.views && Coherent(w.views[id]) && since <= w.loads + 1
    requires PossibleRun(Apply(w, StartLoad(id, force)), steps) && KeepsNewest(steps, id)
    ensures id in Run(Apply(w, StartLoad(id, force)), steps).views
    ensures
      var end := Run(Apply(w, StartLoad(id, force)), steps).views[id];
      var hit := Usable(w, id, force);
      end.shown.asked >= since <==>
        || AnsweredIn(steps, id, w.views[id].requestToken + 1)
        || (if hit.Some? then hit.value.data else w.views[id].shown).asked >= since
  {
    hide AnsweredIn, KeepsNewest;
    var begun := Apply(w, StartLoad(id, force));
    NewestRun(begun, steps, id);
    NumberedLoad(w, id, force);
  }

  lemma {:induction false} SplitRun(w: World, steps: seq<Step>, k: nat)
    requires PossibleRun(w, steps) && k <= |steps|
    ensures PossibleRun(w, steps[..k]) && PossibleRun(Run(w, steps[..k]), steps[k..])
    ensures Run(w, steps) == Run(Run(w, steps[..k]), steps[k..])
    decreases k
  {
    hide Apply, Possible;
    if k == 0 {
      assert steps[..0] == [] && steps[0..] == steps;
    } else {
      SplitRun(Apply(w, steps[0]), steps[1..], k - 1);
      assert steps[..k][1..] == steps[1..][..k - 1] && steps[k..] == steps[1..][k - 1..];
    }
  }

  /** The position of the newest load of the list. */
  lemma {:induction false} NewestLoad(steps: seq<Step>, id: ViewId) returns (k: nat)
    requires !KeepsNewest(steps, id)
    ensures k < |steps| && steps[k].StartLoad? && steps[k].id == id && KeepsNewest(steps[k + 1..], id)
    decreases |steps|
  {
    var last := |steps| - 1;
    if steps[last].StartLoad? && steps[last].id == id {
      k := last;
    } else {
      assert steps == steps[..last] + [steps[last]];
      k := NewestLoad(steps[..last], id);
      assert steps[k + 1..] == steps[..last][k + 1..] + [steps[last]];
    }
  }

  /**
    The exact account for every run with any number of loads, split at the newest
    one of the list: the rows come from an answer asked for at number `since` or
    later if and only if that load has been answered with rows, or what it
    painted or left came from such an answer.
   */
  lemma RenewedInRun(w: World, steps: seq<Step>, id: ViewId, since: nat) returns (k: nat)
    requires Sound(w) && Dated(w) && PossibleRun(w, steps) && since <= w.loads + 1
    requires id in w.views && !KeepsNewest(steps, id)
    ensures k < |steps| && steps[k].StartLoad? && steps[k].id == id && KeepsNewest(steps[k + 1..], id)
    ensures PossibleRun(w, steps[..k]) && id in Run(w, steps[..k]).views && id in Run(w, steps).views
    ensures
      var at := Run(w, steps[..k]);
      var hit := Usable(at, id, steps[k].force);
      Run(w, steps).views[id].shown.asked >= since <==>
        || AnsweredIn(steps[k + 1..], id, at.views[id].requestToken + 1)
        || (if hit.Some? then hit.value.data else at.views[id].shown).asked >= since
  {
    hide AnsweredIn, KeepsNewest, Usable, Dated, Apply;
    k := NewestLoad(steps, id);
    SplitRun(w, steps, k);
    SoundRun(w, steps[..k]);
    DatedRun(w, steps[..k]);
    assert steps[k..][0] == steps[k] && steps[k..][1..] == steps[k + 1..];
    RenewedExactly(Run(w, steps[..k]), id, steps[k].force, steps[k + 1..], since);
  }

  lemma NumberedLoad(w: World, id: ViewId, force: bool)
    requires id in w.views && Coherent(w.views[id])
    ensures
      var next := Apply(w, StartLoad(id, force)).views[id];
      var hit := Usable(w, id, force);
      && next.requestToken == w.views[id].requestToken + 1
      && (next.requestToken in next.outstanding ==> next.outstanding[next.requestToken].number == w.loads + 1)
      && next.shown == if hit.Some? then hit.value.data else w.views[id].shown
  {
    assert w.views[id].requestToken + 1 !in w.views[id].outstanding;
  }

  /**
    A mark is honoured exactly when the load that consumes it is answered with
    rows before another load of the list starts; until then the old rows stay.
   */
  lemma ConsumedExactly(w: World, id: ViewId, steps: seq<Step>)
    requires Dated(w) && id in w.views && Coherent(w.views[id])
    requires w.views[id].config.key != "" && w.views[id].config.key in w.stale
    requires PossibleRun(Apply(w, StartLoad(id, false)), steps) && KeepsNewest(steps, id)
    ensures w.views[id].config.key !in Apply(w, StartLoad(id, false)).stale
    ensures id in Run(Apply(w, StartLoad(id, false)), steps).views
    ensures
      var end := Run(Apply(w, StartLoad(id, false)), steps).views[id];
      end.shown.asked > w.loads <==> AnsweredIn(steps, id, w.views[id].requestToken + 1)
  {
    RenewedExactly(w, id, false, steps, w.loads + 1);
  }

  /**
    After a mark was consumed at `since` and as long as no answer asked for since
    then has reached the screen or the cache entry in question, the list shows
    such an answer if and only if its newest load was sent and answered with rows.
   */
  lemma MarkHonoured(w: World, id: ViewId, force: bool, steps: seq<Step>, since: nat)
    requires id in w.views && Coherent(w.views[id]) && since <= w.loads + 1
    requires w.views[id].shown.asked < since
    requires Usable(w, id, force).Some? ==> Usable(w, id, force).value.data.asked < since
    requires PossibleRun(Apply(w, StartLoad(id, force)), steps) && KeepsNewest(steps, id)
    ensures id in Run(Apply(w, StartLoad(id, force)), steps).views
    ensures
      var begun := Apply(w, StartLoad(id, force)).views[id];
      Run(Apply(w, StartLoad(id, force)), steps).views[id].shown.asked >= since <==>
        begun.requestToken in begun.outstanding && AnsweredIn(steps, id, begun.requestToken)
  {
    hide AnsweredIn, KeepsNewest;
    RenewedExactly(w, id, force, steps, since);
    NumberedLoad(w, id, force);
    NewestRun(Apply(w, StartLoad(id, force)), steps, id);
  }

  /**
    A first input for which a mark is lost: the load that consumes it is
    superseded by one that is content with the cache.
   */
  lemma MarkCanBeLost(w: World, id: ViewId, reply: Reply)
    requires id in w.views && w.views[id].config.key != "" && !IsKanban(w.views[id].config, w.views[id].query)
    requires Coherent(w.views[id])
    requires
      var hit := Lookup(w.store, KeyOf(w.user, w.views[id].config, w.views[id].query), w.now);
      hit.Some? && hit.value.isFresh
    ensures
      var view := w.views[id];
      var key := KeyOf(w.user, view.config, view.query);
      var first := view.requestToken + 1;
      var consumed := Apply(Apply(w, MarkStale({view.config.key})), StartLoad(id, false));
      var asked := Apply(consumed, StartLoad(id, false));
      && first in consumed.views[id].outstanding
      && asked.views[id].outstanding == consumed.views[id].outstanding
      && (Answers(consumed.views[id].outstanding[first], reply) ==>
            var end := Apply(asked, Arrive(id, first, reply));
            && end.store == w.store && end.views[id].shown == w.store[key].data
            && !end.views[id].pending && view.config.key !in end.stale)
  {
  }

  /**
    A second one: the load that consumes the mark fails, nothing supersedes it,
    and the next load is content with the cache: the old rows are back on screen,
    the error and the mark are gone, and no request is on its way.
   */
  lemma MarkLostByFailure(w: World, id: ViewId, message: string)
    requires id in w.views && w.views[id].config.key != "" && !IsKanban(w.views[id].config, w.views[id].query)
    requires Coherent(w.views[id])
    requires
      var hit := Lookup(w.store, KeyOf(w.user, w.views[id].config, w.views[id].query), w.now);
      hit.Some? && hit.value.isFresh
    ensures
      var view := w.views[id];
      var key := KeyOf(w.user, view.config, view.query);
      var token := view.requestToken + 1;
      var consumed := Apply(Apply(w, MarkStale({view.config.key})), StartLoad(id, false));
      && Possible(consumed, Arrive(id, token, Failure(message)))
      && var failed := Apply(consumed, Arrive(id, token, Failure(message)));
      && failed.views[id].error.Some?
      && var end := Apply(failed, StartLoad(id, false));
      && end.store == w.store && end.views[id].shown == w.store[key].data
      && !end.views[id].pending && end.views[id].error.None?
      && end.views[id].requestToken !in end.views[id].outstanding && view.config.key !in end.stale
  {
  }

  // --- row numbers -----------------------------------------------------------------

  ghost predicate WellNumbered(page: Page, key: Key) {
    forall i :: 0 <= i < |page.rows| ==>
      page.rows[i].rowNumber == Some((key.query.page - 1) * key.query.limit + i + 1)
  }

  /**
    Row numbers are computed from the route as it is when the reply arrives: the
    page that is cached is numbered for its key exactly when it is empty or the
    route still has the offset it had when the load started.
   */
  lemma NumberedForKey(w: World, id: ViewId, token: nat, reply: Reply)
    requires Possible(w, Arrive(id, token, reply)) && reply.Listed?
    requires token == w.views[id].requestToken && w.views[id].config.numbersRows
    ensures
      var key := w.views[id].outstanding[token].key;
      var query := w.views[id].query;
      WellNumbered(Apply(w, Arrive(id, token, reply)).store[key].data, key)
      <==> reply.page.rows == [] || (query.page - 1) * query.limit == (key.query.page - 1) * key.query.limit
  {
    var key := w.views[id].outstanding[token].key;
    var stored := Apply(w, Arrive(id, token, reply)).store[key].data;
    if reply.page.rows != [] {
      assert stored.rows[0].rowNumber == Some((w.views[id].query.page - 1) * w.views[id].query.limit + 1);
    }
  }

  /** The reload that follows a navigation starts before a reply is handled. */
  ghost predicate Prompt(w: World, step: Step)
    requires Possible(w, step)
  {
    step.Arrive? && step.reply.Listed? && step.token == w.views[step.id].requestToken ==>
      w.views[step.id].query == w.views[step.id].outstanding[step.token].key.query
  }

  ghost predicate PromptRun(w: World, steps: seq<Step>)
    requires PossibleRun(w, steps)
    decreases |steps|
  {
    steps != [] ==> Prompt(w, steps[0]) && PromptRun(Apply(w, steps[0]), steps[1..])
  }

  /** `numbered` names the lists that show a row number; keys are computed from their own list. */
  ghost predicate NumberedStore(w: World, numbered: set<string>) {
    && (forall key <- w.store :: key.list in numbered ==> WellNumbered(w.store[key].data, key))
    && (forall id <- w.views ::
          && (w.views[id].config.numbersRows <==> w.views[id].config.key in numbered)
          && forall token <- w.views[id].outstanding :: w.views[id].outstanding[token].key.list == w.views[id].config.key)
  }

  lemma {:induction false} NumberedRun(w: World, steps: seq<Step>, numbered: set<string>)
    requires NumberedStore(w, numbered) && PossibleRun(w, steps) && PromptRun(w, steps)
    requires forall step <- steps :: step.Mount? ==> (step.config.numbersRows <==> step.config.key in numbered)
    ensures NumberedStore(Run(w, steps), numbered)
    decreases |steps|
  {
    if steps != [] {
      var next := Apply(w, steps[0]);
      forall key | key in next.store && key.list in numbered ensures WellNumbered(next.store[key].data, key) {
        if steps[0].Arrive? && next.store != w.store && key == w.views[steps[0].id].outstanding[steps[0].token].key {
          NumberedForKey(w, steps[0].id, steps[0].token, steps[0].reply);
        }
      }
      NumberedRun(next, steps[1..], numbered);
    }
  }
}
