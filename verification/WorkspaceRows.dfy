/** What the rows on screen and in the cache are (frontend/app/composables/workspace/useEntityWorkspace.ts). */
module WorkspaceRows {
  import opened Wrappers
  import opened ListCache
  import opened Workspace

  /** How many rows the first `k` columns hold. */
  function Before(columns: seq<Column>, k: nat): nat
    requires k <= |columns|
  {
    if k == 0 then 0 else Before(columns, k - 1) + |columns[k - 1].rows|
  }

  /** The total of the first `k` columns. */
  function Sum(columns: seq<Column>, k: nat): int
    requires k <= |columns|
  {
    if k == 0 then 0 else Sum(columns, k - 1) + columns[k - 1].total
  }

  predicate HoldsAt(rows: seq<Row>, start: nat, part: seq<Row>) {
    start + |part| <= |rows| && rows[start..start + |part|] == part
  }

  /** The rows of all columns, one column after the other, and nothing else. */
  ghost predicate Spread(rows: seq<Row>, columns: seq<Column>) {
    && |rows| == Before(columns, |columns|)
    && forall k :: 0 <= k < |columns| ==> HoldsAt(rows, Before(columns, k), columns[k].rows)
  }

  lemma {:induction false} FlattenedOneMore(columns: seq<Column>, last: Column)
    ensures Flattened(columns + [last]) == Flattened(columns) + last.rows
    ensures Totalled(columns + [last]) == Totalled(columns) + last.total
  {
    if columns != [] {
      assert (columns + [last])[1..] == columns[1..] + [last];
      FlattenedOneMore(columns[1..], last);
    }
  }

  lemma {:induction false} BeforePrefix(columns: seq<Column>, n: nat, k: nat)
    requires k <= n <= |columns|
    ensures Before(columns[..n], k) == Before(columns, k) && Sum(columns[..n], k) == Sum(columns, k)
  {
    if k > 0 {
      BeforePrefix(columns, n, k - 1);
    }
  }

  lemma HoldsLonger(rows: seq<Row>, more: seq<Row>, start: nat, part: seq<Row>)
    ensures HoldsAt(rows, start, part) ==> HoldsAt(rows + more, start, part)
    ensures HoldsAt(rows + more, |rows|, more)
  {
    if HoldsAt(rows, start, part) {
      assert (rows + more)[start..start + |part|] == rows[start..start + |part|];
    }
  }

  lemma SpreadOneMore(rows: seq<Row>, columns: seq<Column>, n: nat)
    requires n + 1 == |columns| && Spread(rows, columns[..n])
    ensures Spread(rows + columns[n].rows, columns)
  {
    hide HoldsAt;
    BeforePrefix(columns, n, n);
    forall k | 0 <= k < |columns| ensures HoldsAt(rows + columns[n].rows, Before(columns, k), columns[k].rows) {
      ColumnStays(rows, columns, n, k);
    }
  }

  lemma ColumnStays(rows: seq<Row>, columns: seq<Column>, n: nat, k: nat)
    requires n + 1 == |columns| && k <= n && Spread(rows, columns[..n])
    ensures HoldsAt(rows + columns[n].rows, Before(columns, k), columns[k].rows)
  {
    hide HoldsAt, Before;
    BeforePrefix(columns, n, k);
    HoldsLonger(rows, columns[n].rows, Before(columns, k), columns[k].rows);
    if k < n {
      assert HoldsAt(rows, Before(columns[..n], k), columns[..n][k].rows);
    }
  }

  lemma {:induction false} FlattenedExactly(columns: seq<Column>)
    ensures Spread(Flattened(columns), columns) && Totalled(columns) == Sum(columns, |columns|)
    decreases |columns|
  {
    hide Spread;
    if columns != [] {
      var n := |columns| - 1;
      FlattenedExactly(columns[..n]);
      FlattenedOneMore(columns[..n], columns[n]);
      assert columns[..n] + [columns[n]] == columns;
      BeforePrefix(columns, n, n);
      SpreadOneMore(Flattened(columns[..n]), columns, n);
    } else {
      NoColumns();
    }
  }

  lemma NoColumns()
    ensures Spread([], [])
  {
  }

  /**
    The page shows what the reply brought: the same rows in the same order, of
    which numbering touches nothing but the row number, and the same total; for a
    board the rows and totals of all columns.
   */
  ghost predicate Carries(page: Page, reply: Reply, numbered: bool) {
    match reply
    case Listed(brought) =>
      && |page.rows| == |brought.rows| && page.total == brought.total
      && (forall i :: 0 <= i < |page.rows| ==> page.rows[i].id == brought.rows[i].id)
      && (!numbered ==> page.rows == brought.rows)
      && page.answers == brought.answers
    case Staged(columns, answers, _) =>
      Spread(page.rows, columns) && page.total == Sum(columns, |columns|) && page.answers == Some(answers)
    case Failure(_) => false
  }

  /** `answer` says what the server sends to each load, by number. */
  ghost predicate Heard(w: World, step: Step, answer: nat -> Reply)
    requires Possible(w, step)
  {
    step.Arrive? ==> step.reply == answer(w.views[step.id].outstanding[step.token].number)
  }

  ghost predicate HeardRun(w: World, steps: seq<Step>, answer: nat -> Reply)
    requires PossibleRun(w, steps)
    decreases |steps|
  {
    steps != [] ==> Heard(w, steps[0], answer) && HeardRun(Apply(w, steps[0]), steps[1..], answer)
  }

  /** A cached page is what the server sent to the load that wrote it. */
  ghost predicate FilledPage(page: Page, key: Key, answer: nat -> Reply, numbered: set<string>) {
    answer(page.asked).Listed? && Carries(page, answer(page.asked), key.list in numbered)
  }

  /** So is what a view shows; a board's columns are those of the same answer. */
  ghost predicate FilledView(view: View, answer: nat -> Reply, numbered: set<string>) {
    && (view.shown == BLANK || Carries(view.shown, answer(view.shown.asked), view.config.key in numbered))
    && (view.shown != BLANK && answer(view.shown.asked).Staged? ==> view.columns == answer(view.shown.asked).columns)
    && (view.config.numbersRows <==> view.config.key in numbered)
    && forall token <- view.outstanding :: view.outstanding[token].key.list == view.config.key
  }

  /** `numbered` names the lists that show a row number. */
  ghost predicate Filled(w: World, answer: nat -> Reply, numbered: set<string>) {
    && (forall key <- w.store :: FilledPage(w.store[key].data, key, answer, numbered))
    && (forall id <- w.views :: FilledView(w.views[id], answer, numbered))
  }

  lemma FilledBegin(w: World, id: ViewId, force: bool, answer: nat -> Reply, numbered: set<string>)
    requires Filled(w, answer, numbered) && id in w.views
    ensures FilledView(Apply(w, StartLoad(id, force)).views[id], answer, numbered)
  {
    hide Carries;
  }

  lemma FilledSettle(w: World, id: ViewId, token: nat, reply: Reply, answer: nat -> Reply, numbered: set<string>)
    requires Filled(w, answer, numbered) && Possible(w, Arrive(id, token, reply)) && Heard(w, Arrive(id, token, reply), answer)
    ensures Filled(Apply(w, Arrive(id, token, reply)), answer, numbered)
  {
    if reply.Staged? {
      FlattenedExactly(reply.columns);
    }
    var view := w.views[id];
    if reply.Listed? {
      assert Carries(Decorated(reply.page, view.config, view.query), reply, view.config.key in numbered);
      assert Decorated(reply.page, view.config, view.query).asked == reply.page.asked == view.outstanding[token].number;
    }
    hide Carries, Decorated, Flattened, Totalled;
  }

  lemma FilledStep(w: World, step: Step, answer: nat -> Reply, numbered: set<string>)
    requires Filled(w, answer, numbered) && Possible(w, step) && Heard(w, step, answer)
    requires step.Mount? ==> (step.config.numbersRows <==> step.config.key in numbered)
    ensures Filled(Apply(w, step), answer, numbered)
  {
    hide Carries, Begin;
    if step.StartLoad? {
      FilledBegin(w, step.id, step.force, answer, numbered);
    } else if step.Arrive? {
      FilledSettle(w, step.id, step.token, step.reply, answer, numbered);
    }
  }

  lemma {:induction false} FilledRun(w: World, steps: seq<Step>, answer: nat -> Reply, numbered: set<string>)
    requires Filled(w, answer, numbered) && PossibleRun(w, steps) && HeardRun(w, steps, answer)
    requires forall step <- steps :: step.Mount? ==> (step.config.numbersRows <==> step.config.key in numbered)
    ensures Filled(Run(w, steps), answer, numbered)
    decreases |steps|
  {
    hide Filled, Apply, Possible, Heard;
    if steps != [] {
      assert steps[0] in steps;
      FilledStep(w, steps[0], answer, numbered);
      FilledRun(Apply(w, steps[0]), steps[1..], answer, numbered);
    }
  }

  /** The request a reply answers. */
  function Answered(reply: Reply): Option<Key> {
    match reply
    case Listed(page) => page.answers
    case Staged(_, answers, _) => Some(answers)
    case Failure(_) => None
  }

  /**
    In every run from an empty session: each cached page holds exactly the rows
    and total that the server sent for the page's key, and without spinner and
    error the screen holds exactly those it sent to a load of the newest key, a
    board all columns of one answer.
   */
  lemma ShowsWhatWasSent(w: World, steps: seq<Step>, id: ViewId, answer: nat -> Reply, numbered: set<string>)
    requires Started(w) && PossibleRun(w, steps) && HeardRun(w, steps, answer)
    requires forall step <- steps :: step.Mount? ==> (step.config.numbersRows <==> step.config.key in numbered)
    requires id in Run(w, steps).views
    ensures
      var end := Run(w, steps);
      && (forall key <- end.store ::
            var page := end.store[key].data;
            answer(page.asked).Listed? && answer(page.asked).page.answers == Some(key)
            && Carries(page, answer(page.asked), key.list in numbered))
      && var view := end.views[id];
      && (view.requestToken > 0 && !view.pending && view.error.None? ==>
            && Carries(view.shown, answer(view.shown.asked), view.config.numbersRows)
            && Answered(answer(view.shown.asked)) == view.latest
            && (answer(view.shown.asked).Staged? ==> view.columns == answer(view.shown.asked).columns))
  {
    FilledRun(w, steps, answer, numbered);
    SoundRun(w, steps);
    var view := Run(w, steps).views[id];
    assert FilledView(view, answer, numbered) && Coherent(view);
    SettledIsAnswered(w, steps, id);
  }

  lemma {:induction false} SettledIsAnswered(w: World, steps: seq<Step>, id: ViewId)
    requires LatestIsSome(w) && PossibleRun(w, steps) && id in Run(w, steps).views
    ensures Run(w, steps).views[id].requestToken > 0 ==> Run(w, steps).views[id].latest.Some?
    decreases |steps|
  {
    if steps != [] {
      SettledIsAnswered(Apply(w, steps[0]), steps[1..], id);
    }
  }

  ghost predicate LatestIsSome(w: World) {
    forall id <- w.views :: w.views[id].requestToken > 0 ==> w.views[id].latest.Some?
  }
}
