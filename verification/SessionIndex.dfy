/** The index of tokens per user is exact, so that logging out ends just what it should (backend/app/core/security.py). */
module SessionIndex {
  import opened Redis
  import opened Sessions

  /** A live index names only stored tokens of its user. */
  ghost predicate OwnIndex(store: Store) {
    forall user <- store.userTokens :: Live(store.userTokens, user, store.now) ==> Owns(store, user, store.userTokens[user].value)
  }

  ghost predicate Owns(store: Store, user: UserId, jtis: set<Jti>) {
    forall jti <- jtis :: jti in store.jwt && store.jwt[jti].value.userId == user
  }

  lemma OwnAfterStore(store: Store, token: Token, csrf: string, ttl: int, refreshTtl: int)
    requires OwnIndex(store) && UniqueIds(store) && forall other <- store.signed :: other.jti != token.jti
    ensures OwnIndex(StoreToken(store, token, csrf, ttl, refreshTtl))
  {
    var next := StoreToken(store, token, csrf, ttl, refreshTtl);
    forall user | user in next.userTokens && Live(next.userTokens, user, next.now)
      ensures Owns(next, user, next.userTokens[user].value)
    {
      if Live(store.userTokens, user, store.now) {
        assert Owns(store, user, store.userTokens[user].value);
        assert token.jti !in store.jwt;
      }
    }
  }

  lemma OwnAfterRevoke(store: Store, jti: Jti, user: UserId)
    requires OwnIndex(store)
    requires jti in store.jwt ==> store.jwt[jti].value.userId == user
    ensures OwnIndex(RevokeJti(store, jti, user))
  {
    var next := RevokeJti(store, jti, user);
    forall owner | owner in next.userTokens && Live(next.userTokens, owner, next.now)
      ensures Owns(next, owner, next.userTokens[owner].value)
    {
      assert Owns(store, owner, store.userTokens[owner].value);
    }
  }

  lemma OwnAfterRevokeAll(store: Store, user: UserId)
    requires OwnIndex(store)
    ensures OwnIndex(RevokeUser(store, user))
  {
    var next := RevokeUser(store, user);
    forall owner | owner in next.userTokens && Live(next.userTokens, owner, next.now)
      ensures Owns(next, owner, next.userTokens[owner].value)
    {
      assert Owns(store, owner, store.userTokens[owner].value);
      if Live(store.userTokens, user, store.now) {
        assert Owns(store, user, store.userTokens[user].value);
      }
    }
  }

  lemma OwnAfterIssue(store: Store, pair: Pair, accessTtl: int, refreshTtl: int)
    requires OwnIndex(store) && UniqueIds(store) && FreshIds(store, pair.access.jti, pair.refresh.jti)
    ensures OwnIndex(Issue(store, pair, accessTtl, refreshTtl))
  {
    OwnAfterStore(store, pair.access, pair.csrf, accessTtl, refreshTtl);
    StoreTokenUnique(store, pair.access, pair.csrf, accessTtl, refreshTtl);
    OwnAfterStore(StoreToken(store, pair.access, pair.csrf, accessTtl, refreshTtl), pair.refresh, pair.csrf, refreshTtl, refreshTtl);
  }

  lemma SignedOwner(store: Store, token: Token)
    requires UniqueIds(store) && token in store.signed && token.jti in store.jwt
    ensures store.jwt[token.jti].value.userId == token.sub
  {
  }

  lemma OwnStep(store: Store, op: Operation, refreshTtl: int)
    requires refreshTtl > 0 && Sound(store, refreshTtl) && OwnIndex(store) && Possible(store, op)
    ensures OwnIndex(Apply(store, op, refreshTtl))
  {
    match op
    case Elapse(seconds) =>
      var next := Apply(store, op, refreshTtl);
      forall user | user in next.userTokens && Live(next.userTokens, user, next.now)
        ensures Owns(next, user, next.userTokens[user].value)
      {
        assert Live(store.userTokens, user, store.now) && Owns(store, user, store.userTokens[user].value);
      }
    case Login(user, a, r, csrf, accessTtl) =>
      OwnAfterIssue(store, SignedPair(user, a, r, csrf, store.now, accessTtl, refreshTtl), accessTtl, refreshTtl);
    case Rotate(token, known, a, r, csrf, accessTtl) =>
      if Authenticate(store, token, Refresh, known).Ok? {
        SignedOwner(store, token);
        OwnAfterRevoke(store, token.jti, token.sub);
        RevokeJtiSound(store, token.jti, token.sub, refreshTtl);
        OwnAfterIssue(RevokeJti(store, token.jti, token.sub),
                      SignedPair(token.sub, a, r, csrf, store.now, accessTtl, refreshTtl), accessTtl, refreshTtl);
      }
    case LogoutWith(token) =>
      if token in store.signed {
        if token.jti in store.jwt {
          SignedOwner(store, token);
        }
        OwnAfterRevoke(store, token.jti, token.sub);
      }
    case LogoutEverywhere(user) => OwnAfterRevokeAll(store, user);
  }

  lemma {:induction false} OwnRun(store: Store, ops: seq<Operation>, refreshTtl: int)
    requires refreshTtl > 0 && Sound(store, refreshTtl) && OwnIndex(store) && PossibleRun(store, ops, refreshTtl)
    requires forall op <- ops :: ShortAccess(op, refreshTtl)
    ensures OwnIndex(Run(store, ops, refreshTtl)) && Sound(Run(store, ops, refreshTtl), refreshTtl)
    decreases |ops|
  {
    hide OwnIndex, Sound, Apply, Possible, ShortAccess;
    if ops != [] {
      assert ops[0] in ops;
      OwnStep(store, ops[0], refreshTtl);
      SoundStep(store, ops[0], refreshTtl);
      OwnRun(Apply(store, ops[0], refreshTtl), ops[1..], refreshTtl);
    }
  }

  /** No token has been signed yet. */
  ghost predicate Started(store: Store) {
    store.signed == {} && store.jwt == map[] && store.userTokens == map[]
  }

  lemma EverywhereExactly(store: Store, refreshTtl: int, user: UserId, token: Token, kind: Kind, known: bool)
    requires Sound(store, refreshTtl) && OwnIndex(store)
    ensures Authenticate(RevokeUser(store, user), token, kind, known).Ok?
       <==> Authenticate(store, token, kind, known).Ok? && token.sub != user
  {
    if token in store.signed && Live(store.jwt, token.jti, store.now) {
      SignedOwner(store, token);
      assert token.jti in Members(store, token.sub);
      assert token.jti in Members(store, user) ==> token.sub == user by {
        if Live(store.userTokens, user, store.now) {
          assert Owns(store, user, store.userTokens[user].value);
        }
      }
    }
  }

  lemma OneExactly(store: Store, spent: Token, token: Token, kind: Kind, known: bool)
    requires UniqueIds(store) && spent in store.signed
    ensures Authenticate(Logout(store, spent), token, kind, known).Ok?
       <==> Authenticate(store, token, kind, known).Ok? && token != spent
    ensures spent.jti !in Members(Logout(store, spent), spent.sub)
  {
  }

  /**
    After any run: logging a user out everywhere ends exactly that user's
    sessions, and logging out with one token ends exactly that token; every other
    token is accepted afterwards if and only if it was before.
   */
  lemma LogoutExactly(start: Store, ops: seq<Operation>, refreshTtl: int, user: UserId, spent: Token,
                      token: Token, kind: Kind, known: bool)
    requires refreshTtl > 0 && Started(start) && PossibleRun(start, ops, refreshTtl)
    requires forall op <- ops :: ShortAccess(op, refreshTtl)
    requires spent in Run(start, ops, refreshTtl).signed
    ensures
      var store := Run(start, ops, refreshTtl);
      && (Authenticate(Apply(store, LogoutEverywhere(user), refreshTtl), token, kind, known).Ok?
          <==> Authenticate(store, token, kind, known).Ok? && token.sub != user)
      && (Authenticate(Apply(store, LogoutWith(spent), refreshTtl), token, kind, known).Ok?
          <==> Authenticate(store, token, kind, known).Ok? && token != spent)
      && spent.jti !in Members(Apply(store, LogoutWith(spent), refreshTtl), spent.sub)
  {
    assert Sound(start, refreshTtl) && OwnIndex(start);
    OwnRun(start, ops, refreshTtl);
    var store := Run(start, ops, refreshTtl);
    EverywhereExactly(store, refreshTtl, user, token, kind, known);
    OneExactly(store, spent, token, kind, known);
    hide OwnIndex, Sound, Authenticate, RevokeUser, Logout, Members;
  }
}
