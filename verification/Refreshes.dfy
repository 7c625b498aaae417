/**
  Refreshes that overlap (backend/app/core/security.py): the refresh token is
  looked up first and deleted in a later command, and other requests run in between.
 */
module Refreshes {
  import opened Wrappers
  import opened Redis
  import opened Sessions

  type Caller = nat

  /** The store, and the callers whose token has been found good but is not deleted yet. */
  datatype World = World(store: Store, passed: map<Caller, Token>)

  datatype Step =
    | Perform(op: Operation)
    | Check(caller: Caller, token: Token, known: bool)
    | Spend(caller: Caller, accessJti: Jti, refreshJti: Jti, csrf: string, accessTtl: int)

  ghost predicate Enabled(w: World, step: Step) {
    match step
    case Perform(op) => Possible(w.store, op)
    case Check(caller, _, _) => caller !in w.passed
    case Spend(_, a, r, _, accessTtl) => accessTtl > 0 && FreshIds(w.store, a, r)
  }

  /** The refresh goes through exactly for a caller whose check has passed. */
  function Next(w: World, step: Step, refreshTtl: int): World {
    match step
    case Perform(op) => w.(store := Apply(w.store, op, refreshTtl))
    case Check(caller, token, known) =>
      if Authenticate(w.store, token, Refresh, known).Ok? then w.(passed := w.passed[caller := token]) else w
    case Spend(caller, a, r, csrf, accessTtl) =>
      if caller in w.passed then
        var token := w.passed[caller];
        World(Issue(RevokeJti(w.store, token.jti, token.sub),
                    SignedPair(token.sub, a, r, csrf, w.store.now, accessTtl, refreshTtl), accessTtl, refreshTtl),
              w.passed - {caller})
      else w
  }

  ghost predicate EnabledRun(w: World, steps: seq<Step>, refreshTtl: int)
    decreases |steps|
  {
    steps != [] ==> Enabled(w, steps[0]) && EnabledRun(Next(w, steps[0], refreshTtl), steps[1..], refreshTtl)
  }

  function After(w: World, steps: seq<Step>, refreshTtl: int): World
    decreases |steps|
  {
    if steps == [] then w else After(Next(w, steps[0], refreshTtl), steps[1..], refreshTtl)
  }

  /** The step deletes what is stored under the id. */
  predicate Deletes(w: World, step: Step, jti: Jti) {
    match step
    case Perform(Rotate(token, known, _, _, _, _)) =>
      token.jti == jti && Authenticate(w.store, token, Refresh, known).Ok?
    case Perform(LogoutWith(token)) => token.jti == jti && token in w.store.signed
    case Perform(LogoutEverywhere(user)) => jti in Members(w.store, user)
    case Spend(caller, _, _, _, _) => caller in w.passed && w.passed[caller].jti == jti
    case _ => false
  }

  ghost predicate DeletedBy(w: World, steps: seq<Step>, refreshTtl: int, jti: Jti)
    decreases |steps|
  {
    steps != [] && (Deletes(w, steps[0], jti) || DeletedBy(Next(w, steps[0], refreshTtl), steps[1..], refreshTtl, jti))
  }

  /** The instant from which a stored token is too old. */
  function Expiry(store: Store, token: Token): int
    requires token.jti in store.jwt
  {
    Min(token.exp, store.jwt[token.jti].expires.GetOr(token.exp))
  }

  function Min(a: int, b: int): int { if a <= b then a else b }

  lemma StoredStep(w: World, step: Step, refreshTtl: int, token: Token)
    requires Enabled(w, step) && token in w.store.signed
    ensures
      var next := Next(w, step, refreshTtl);
      && token in next.store.signed
      && (token.jti in next.store.jwt <==> token.jti in w.store.jwt && !Deletes(w, step, token.jti))
      && (token.jti in next.store.jwt ==> next.store.jwt[token.jti] == w.store.jwt[token.jti])
  {
  }

  /** Once signed and stored, a token stays stored until a step deletes it. */
  lemma {:induction false} StoredRun(w: World, steps: seq<Step>, refreshTtl: int, token: Token)
    requires EnabledRun(w, steps, refreshTtl) && token in w.store.signed
    ensures
      var end := After(w, steps, refreshTtl);
      && token in end.store.signed
      && (token.jti in end.store.jwt <==> token.jti in w.store.jwt && !DeletedBy(w, steps, refreshTtl, token.jti))
      && (token.jti in end.store.jwt ==> end.store.jwt[token.jti] == w.store.jwt[token.jti])
    decreases |steps|
  {
    hide Enabled, Next, Deletes;
    if steps != [] {
      StoredStep(w, steps[0], refreshTtl, token);
      StoredRun(Next(w, steps[0], refreshTtl), steps[1..], refreshTtl, token);
    }
  }

  predicate Names(step: Step, caller: Caller) {
    !step.Perform? && step.caller == caller
  }

  lemma {:induction false} PassedRun(w: World, steps: seq<Step>, refreshTtl: int, caller: Caller)
    requires forall step <- steps :: !Names(step, caller)
    ensures
      var end := After(w, steps, refreshTtl);
      && (caller in end.passed <==> caller in w.passed)
      && (caller in w.passed ==> end.passed[caller] == w.passed[caller])
    decreases |steps|
  {
    hide Apply, Authenticate, Issue, RevokeJti;
    if steps != [] {
      assert steps[0] in steps;
      PassedRun(Next(w, steps[0], refreshTtl), steps[1..], refreshTtl, caller);
    }
  }

  /**
    Who refreshes with one token, whatever runs in between: the callers of a
    known account that look a refresh token up before anybody deletes it and
    before it expires go through, also after it has been deleted; all others,
    and all that present an access token, are refused.
   */
  lemma GrantedExactly(start: World, before: seq<Step>, check: Step, between: seq<Step>, refreshTtl: int)
    requires check.Check?
    requires check.token in start.store.signed && check.token.jti in start.store.jwt && check.caller !in start.passed
    requires EnabledRun(start, before, refreshTtl)
    requires forall step <- before + between :: !Names(step, check.caller)
    ensures
      var looked := After(start, before, refreshTtl);
      var end := After(Next(looked, check, refreshTtl), between, refreshTtl);
      && Enabled(looked, check)
      && (check.caller in end.passed
          <==> check.known && check.token.typ == Refresh && !DeletedBy(start, before, refreshTtl, check.token.jti)
               && looked.store.now < Expiry(start.store, check.token))
      && (check.caller in end.passed ==> end.passed[check.caller] == check.token)
  {
    var looked := After(start, before, refreshTtl);
    forall step | step in before ensures !Names(step, check.caller) {
      assert step in before + between;
    }
    forall step | step in between ensures !Names(step, check.caller) {
      assert step in before + between;
    }
    StoredRun(start, before, refreshTtl, check.token);
    PassedRun(start, before, refreshTtl, check.caller);
    PassedRun(Next(looked, check, refreshTtl), between, refreshTtl, check.caller);
  }

  /** A login, or a refresh in one step that is accepted. */
  predicate Signs(store: Store, op: Operation) {
    op.Login? || (op.Rotate? && Authenticate(store, op.token, Refresh, op.known).Ok?)
  }

  /**
    How long tokens last: after a login or a refresh, whatever runs, each of the
    two tokens is accepted until its own time to live is over or a step deletes it,
    and as long as it is stored it carries the user and the anti-forgery value.
   */
  lemma LastsExactly(w: World, op: Operation, steps: seq<Step>, refreshTtl: int)
    requires refreshTtl > 0 && Possible(w.store, op) && Signs(w.store, op)
    requires EnabledRun(Next(w, Perform(op), refreshTtl), steps, refreshTtl)
    ensures SignedBy(w.store, op, refreshTtl).Some?
    ensures
      var begun := Next(w, Perform(op), refreshTtl);
      var end := After(begun, steps, refreshTtl).store;
      var pair := SignedBy(w.store, op, refreshTtl).value;
      var user := if op.Login? then op.user else op.token.sub;
      && (Authenticate(end, pair.access, Access, true) == Ok(user)
          <==> end.now - w.store.now < op.accessTtl && !DeletedBy(begun, steps, refreshTtl, op.accessJti))
      && (Authenticate(end, pair.refresh, Refresh, true) == Ok(user)
          <==> end.now - w.store.now < refreshTtl && !DeletedBy(begun, steps, refreshTtl, op.refreshJti))
      && (op.accessJti in end.jwt ==> end.jwt[op.accessJti].value == StoredSession(user, op.csrf, Access))
      && (op.refreshJti in end.jwt ==> end.jwt[op.refreshJti].value == StoredSession(user, op.csrf, Refresh))
  {
    var begun := Next(w, Perform(op), refreshTtl);
    var pair := SignedBy(w.store, op, refreshTtl).value;
    StoredRun(begun, steps, refreshTtl, pair.access);
    StoredRun(begun, steps, refreshTtl, pair.refresh);
  }

  /** Going through means new tokens for the same user, and the end of the old one even if somebody else ended it before. */
  lemma SpendRenews(w: World, spend: Step, refreshTtl: int)
    requires refreshTtl > 0 && spend.Spend? && Enabled(w, spend) && spend.caller in w.passed
    requires w.passed[spend.caller] in w.store.signed
    ensures
      var token := w.passed[spend.caller];
      var pair := SignedPair(token.sub, spend.accessJti, spend.refreshJti, spend.csrf, w.store.now, spend.accessTtl, refreshTtl);
      var next := Next(w, spend, refreshTtl);
      && Authenticate(next.store, pair.access, Access, true) == Ok(token.sub)
      && Authenticate(next.store, pair.refresh, Refresh, true) == Ok(token.sub)
      && Dead(next.store, token) && spend.caller !in next.passed
  {
  }
}
