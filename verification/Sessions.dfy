/**
  backend/app/core/security.py: tokens stored in Redis with a time to live, and
  the per-user index that logs a user out everywhere.
 */
module Sessions {
  import opened Wrappers
  import opened Redis

  type UserId = string
  type Jti = string
  datatype Kind = Access | Refresh

  /** The signed claims of a token; only tokens this service signed decode at all. */
  datatype Token = Token(sub: UserId, jti: Jti, exp: int, typ: Kind)

  /** What is kept under `jwt:{jti}`. */
  datatype StoredSession = StoredSession(userId: UserId, csrf: string, typ: Kind)

  datatype AuthError = TokenExpired | AuthenticationRequired | AccountUnavailable | InvalidTtl

  const DAY := 86400

  /** `jwt:*` and `user-tokens:*`, the clock, and every token ever signed. */
  datatype Store = Store(
    now: int,
    jwt: Keyspace<Jti, StoredSession>,
    userTokens: Keyspace<UserId, set<Jti>>,
    signed: set<Token>)

  // ---------------------------------------------------------------------------
  // The operations on values
  // ---------------------------------------------------------------------------

  function Members(store: Store, user: UserId): set<Jti> {
    Get(store.userTokens, user, store.now).GetOr({})
  }

  /** `_store_token`: SETEX, SADD, EXPIRE. */
  function StoreToken(store: Store, token: Token, csrf: string, ttl: int, refreshTtl: int): Store {
    store.(jwt := SetEx(store.jwt, token.jti, ttl, StoredSession(token.sub, csrf, token.typ), store.now),
           userTokens := store.userTokens[token.sub :=
             Timed(Members(store, token.sub) + {token.jti}, Some(store.now + Max(ttl, refreshTtl)))],
           signed := store.signed + {token})
  }

  /** `_revoke_jti` with a known user; SREM deletes a set that becomes empty. */
  function RevokeJti(store: Store, jti: Jti, user: UserId): Store {
    store.(jwt := store.jwt - {jti},
           userTokens :=
             if !Live(store.userTokens, user, store.now) then store.userTokens
             else
               var rest := store.userTokens[user].value - {jti};
               if rest == {} then store.userTokens - {user}
               else store.userTokens[user := store.userTokens[user].(value := rest)])
  }

  /** `revoke_user_tokens`. */
  function RevokeUser(store: Store, user: UserId): Store {
    store.(jwt := store.jwt - Members(store, user), userTokens := store.userTokens - {user})
  }

  /** The pair of tokens a login or refresh signs. */
  datatype Pair = Pair(access: Token, refresh: Token, csrf: string)

  function SignedPair(user: UserId, accessJti: Jti, refreshJti: Jti, csrf: string, now: int, accessTtl: int, refreshTtl: int): Pair {
    Pair(Token(user, accessJti, now + accessTtl, Access), Token(user, refreshJti, now + refreshTtl, Refresh), csrf)
  }

  /** `issue_session`. */
  function Issue(store: Store, pair: Pair, accessTtl: int, refreshTtl: int): Store {
    StoreToken(StoreToken(store, pair.access, pair.csrf, accessTtl, refreshTtl), pair.refresh, pair.csrf, refreshTtl, refreshTtl)
  }

  /** `_user_from_token` with verify_exp; `known` says whether the account resolves. */
  function Authenticate(store: Store, token: Token, kind: Kind, known: bool): Result<UserId, AuthError> {
    if token !in store.signed then Err(AuthenticationRequired)
    else if token.exp <= store.now then Err(TokenExpired)
    else if token.typ != kind then Err(AuthenticationRequired)
    else if !Live(store.jwt, token.jti, store.now) then Err(TokenExpired)
    else if !known then Err(AccountUnavailable)
    else Ok(token.sub)
  }

  /** `delete_session` for one presented token: anything unsigned is skipped. */
  function Logout(store: Store, token: Token): Store {
    if token in store.signed then RevokeJti(store, token.jti, token.sub) else store
  }

  // ---------------------------------------------------------------------------
  // The index invariant
  // ---------------------------------------------------------------------------

  /** Ids are drawn fresh, so an id belongs to one token. */
  ghost predicate UniqueIds(store: Store) {
    && (forall a <- store.signed, b <- store.signed :: a.jti == b.jti ==> a == b)
    && (forall jti <- store.jwt :: exists token <- store.signed ::
          token.jti == jti && token.sub == store.jwt[jti].value.userId)
  }

  /** Every live token of a user is in the user's live index, which expires no earlier. */
  ghost predicate Indexed(store: Store) {
    forall jti <- store.jwt :: Live(store.jwt, jti, store.now) ==>
      var user := store.jwt[jti].value.userId;
      && store.jwt[jti].expires.Some?
      && Live(store.userTokens, user, store.now)
      && jti in store.userTokens[user].value
      && store.userTokens[user].expires.Some?
      && store.jwt[jti].expires.value <= store.userTokens[user].expires.value
  }

  /** No index outlives the longest refresh. */
  ghost predicate IndexBounded(store: Store, refreshTtl: int) {
    forall user <- store.userTokens :: store.userTokens[user].expires.Some?
      && store.userTokens[user].expires.value <= store.now + refreshTtl
  }

  ghost predicate Sound(store: Store, refreshTtl: int) {
    UniqueIds(store) && Indexed(store) && IndexBounded(store, refreshTtl)
  }

  datatype Operation =
    | Elapse(seconds: nat)
    | Login(user: UserId, accessJti: Jti, refreshJti: Jti, csrf: string, accessTtl: int)
    | Rotate(token: Token, known: bool, accessJti: Jti, refreshJti: Jti, csrf: string, accessTtl: int)
    | LogoutWith(token: Token)
    | LogoutEverywhere(user: UserId)

  ghost predicate FreshIds(store: Store, accessJti: Jti, refreshJti: Jti) {
    && accessJti != refreshJti
    && forall token <- store.signed :: token.jti != accessJti && token.jti != refreshJti
  }

  /** Redis refuses a SETEX whose TTL is not positive; fresh ids are never reused. */
  ghost predicate Possible(store: Store, op: Operation) {
    match op
    case Login(_, a, r, _, accessTtl) => accessTtl > 0 && FreshIds(store, a, r)
    case Rotate(_, _, a, r, _, accessTtl) => accessTtl > 0 && FreshIds(store, a, r)
    case _ => true
  }

  function Apply(store: Store, op: Operation, refreshTtl: int): Store {
    match op
    case Elapse(seconds) => store.(now := store.now + seconds)
    case Login(user, a, r, csrf, accessTtl) =>
      Issue(store, SignedPair(user, a, r, csrf, store.now, accessTtl, refreshTtl), accessTtl, refreshTtl)
    case Rotate(token, known, a, r, csrf, accessTtl) =>
      if Authenticate(store, token, Refresh, known).Ok? then
        Issue(RevokeJti(store, token.jti, token.sub), SignedPair(token.sub, a, r, csrf, store.now, accessTtl, refreshTtl),
              accessTtl, refreshTtl)
      else store
    case LogoutWith(token) => Logout(store, token)
    case LogoutEverywhere(user) => RevokeUser(store, user)
  }

  ghost predicate ShortAccess(op: Operation, refreshTtl: int) {
    (op.Login? || op.Rotate?) ==> op.accessTtl <= refreshTtl
  }

  lemma StoreTokenUnique(store: Store, token: Token, csrf: string, ttl: int, refreshTtl: int)
    requires UniqueIds(store) && forall other <- store.signed :: other.jti != token.jti
    ensures UniqueIds(StoreToken(store, token, csrf, ttl, refreshTtl))
  {
    var next := StoreToken(store, token, csrf, ttl, refreshTtl);
    assert token in next.signed;
    forall jti | jti in next.jwt
      ensures exists t <- next.signed :: t.jti == jti && t.sub == next.jwt[jti].value.userId
    {
      if jti != token.jti {
        var t :| t in store.signed && t.jti == jti && t.sub == store.jwt[jti].value.userId;
        assert t in next.signed;
      }
    }
  }

  lemma StoreTokenSound(store: Store, token: Token, csrf: string, ttl: int, refreshTtl: int)
    requires Sound(store, refreshTtl) && 0 < ttl <= refreshTtl
    requires forall other <- store.signed :: other.jti != token.jti
    ensures Sound(StoreToken(store, token, csrf, ttl, refreshTtl), refreshTtl)
  {
    StoreTokenUnique(store, token, csrf, ttl, refreshTtl);
    hide UniqueIds;
  }

  lemma RevokeJtiSound(store: Store, jti: Jti, user: UserId, refreshTtl: int)
    requires Sound(store, refreshTtl)
    requires forall token <- store.signed :: token.jti == jti ==> token.sub == user
    ensures Sound(RevokeJti(store, jti, user), refreshTtl)
  {
  }

  lemma RevokeUserSound(store: Store, user: UserId, refreshTtl: int)
    requires Sound(store, refreshTtl)
    ensures Sound(RevokeUser(store, user), refreshTtl)
  {
  }

  lemma SoundStep(store: Store, op: Operation, refreshTtl: int)
    requires refreshTtl > 0 && Sound(store, refreshTtl) && Possible(store, op) && ShortAccess(op, refreshTtl)
    ensures Sound(Apply(store, op, refreshTtl), refreshTtl)
  {
    match op
    case Elapse(seconds) =>
    case Login(user, a, r, csrf, accessTtl) =>
      IssueSound(store, SignedPair(user, a, r, csrf, store.now, accessTtl, refreshTtl), accessTtl, refreshTtl);
    case Rotate(token, known, a, r, csrf, accessTtl) =>
      if Authenticate(store, token, Refresh, known).Ok? {
        RevokeJtiSound(store, token.jti, token.sub, refreshTtl);
        IssueSound(RevokeJti(store, token.jti, token.sub),
                   SignedPair(token.sub, a, r, csrf, store.now, accessTtl, refreshTtl), accessTtl, refreshTtl);
      }
    case LogoutWith(token) =>
      if token in store.signed {
        RevokeJtiSound(store, token.jti, token.sub, refreshTtl);
      }
    case LogoutEverywhere(user) =>
      RevokeUserSound(store, user, refreshTtl);
  }

  lemma IssueSound(store: Store, pair: Pair, accessTtl: int, refreshTtl: int)
    requires Sound(store, refreshTtl) && 0 < accessTtl <= refreshTtl
    requires FreshIds(store, pair.access.jti, pair.refresh.jti)
    ensures Sound(Issue(store, pair, accessTtl, refreshTtl), refreshTtl)
  {
    StoreTokenSound(store, pair.access, pair.csrf, accessTtl, refreshTtl);
    StoreTokenSound(StoreToken(store, pair.access, pair.csrf, accessTtl, refreshTtl), pair.refresh, pair.csrf, refreshTtl, refreshTtl);
  }

  ghost predicate PossibleRun(store: Store, ops: seq<Operation>, refreshTtl: int)
    decreases |ops|
  {
    ops != [] ==> Possible(store, ops[0]) && PossibleRun(Apply(store, ops[0], refreshTtl), ops[1..], refreshTtl)
  }

  function Run(store: Store, ops: seq<Operation>, refreshTtl: int): Store
    decreases |ops|
  {
    if ops == [] then store else Run(Apply(store, ops[0], refreshTtl), ops[1..], refreshTtl)
  }

  /** At every operation boundary and clock time the index still covers every live token. */
  lemma {:induction false} SoundRun(store: Store, ops: seq<Operation>, refreshTtl: int)
    requires refreshTtl > 0 && Sound(store, refreshTtl) && PossibleRun(store, ops, refreshTtl)
    requires forall op <- ops :: ShortAccess(op, refreshTtl)
    ensures Sound(Run(store, ops, refreshTtl), refreshTtl)
    decreases |ops|
  {
    if ops != [] {
      SoundStep(store, ops[0], refreshTtl);
      SoundRun(Apply(store, ops[0], refreshTtl), ops[1..], refreshTtl);
    }
  }

  // ---------------------------------------------------------------------------
  // Tokens that are over stay over
  // ---------------------------------------------------------------------------

  ghost predicate Dead(store: Store, token: Token) {
    token in store.signed && !Live(store.jwt, token.jti, store.now)
  }

  /** A token that was signed and is no longer stored is never accepted again. */
  lemma {:induction false} DeadForever(store: Store, ops: seq<Operation>, refreshTtl: int, token: Token)
    requires Dead(store, token) && PossibleRun(store, ops, refreshTtl)
    ensures Dead(Run(store, ops, refreshTtl), token)
    ensures forall kind, known :: Authenticate(Run(store, ops, refreshTtl), token, kind, known).Err?
    decreases |ops|
  {
    if ops != [] {
      DeadForever(Apply(store, ops[0], refreshTtl), ops[1..], refreshTtl, token);
    }
  }

  /** A refresh token works once where a refresh is one step: after it was rotated nothing makes it acceptable again. */
  lemma RotatedOnce(store: Store, rotate: Operation, ops: seq<Operation>, refreshTtl: int)
    requires rotate.Rotate? && Possible(store, rotate)
    requires Authenticate(store, rotate.token, Refresh, rotate.known).Ok?
    requires PossibleRun(Apply(store, rotate, refreshTtl), ops, refreshTtl)
    ensures forall kind, known ::
              Authenticate(Run(Apply(store, rotate, refreshTtl), ops, refreshTtl), rotate.token, kind, known).Err?
  {
    DeadForever(Apply(store, rotate, refreshTtl), ops, refreshTtl, rotate.token);
  }

  /** What rotation hands out does work, and belongs to the same user. */
  lemma RotationRenews(store: Store, rotate: Operation, refreshTtl: int)
    requires refreshTtl > 0 && rotate.Rotate? && Possible(store, rotate)
    requires Authenticate(store, rotate.token, Refresh, rotate.known).Ok?
    ensures
      var pair := SignedPair(rotate.token.sub, rotate.accessJti, rotate.refreshJti, rotate.csrf, store.now, rotate.accessTtl, refreshTtl);
      var next := Apply(store, rotate, refreshTtl);
      && Authenticate(next, pair.access, Access, true) == Ok(rotate.token.sub)
      && Authenticate(next, pair.refresh, Refresh, true) == Ok(rotate.token.sub)
  {
  }

  /** The tokens an operation signs, if it signs any. */
  function SignedBy(store: Store, op: Operation, refreshTtl: int): Option<Pair> {
    match op
    case Login(user, a, r, csrf, accessTtl) => Some(SignedPair(user, a, r, csrf, store.now, accessTtl, refreshTtl))
    case Rotate(token, known, a, r, csrf, accessTtl) =>
      if Authenticate(store, token, Refresh, known).Ok?
      then Some(SignedPair(token.sub, a, r, csrf, store.now, accessTtl, refreshTtl)) else None
    case _ => None
  }

  /**
    A token never serves for the other kind: whatever happens after a login or a
    refresh, its refresh token is no access token, and its access token renews
    nothing.
   */
  lemma KindsStayApart(store: Store, op: Operation, ops: seq<Operation>, refreshTtl: int, known: bool)
    requires Possible(store, op) && SignedBy(store, op, refreshTtl).Some?
    requires PossibleRun(Apply(store, op, refreshTtl), ops, refreshTtl)
    ensures
      var pair := SignedBy(store, op, refreshTtl).value;
      var later := Run(Apply(store, op, refreshTtl), ops, refreshTtl);
      Authenticate(later, pair.refresh, Access, known).Err? && Authenticate(later, pair.access, Refresh, known).Err?
  {
  }

  // ---------------------------------------------------------------------------
  // Logging out everywhere
  // ---------------------------------------------------------------------------

  ghost predicate Ousted(store: Store, user: UserId) {
    forall token <- store.signed :: token.sub == user ==> !Live(store.jwt, token.jti, store.now)
  }

  ghost predicate LogsIn(op: Operation, user: UserId) {
    op.Login? && op.user == user
  }

  lemma OustedStep(store: Store, op: Operation, refreshTtl: int, user: UserId)
    requires Ousted(store, user) && Possible(store, op) && !LogsIn(op, user)
    ensures Ousted(Apply(store, op, refreshTtl), user)
  {
    var next := Apply(store, op, refreshTtl);
    match op
    case Elapse(_) =>
    case Login(other, _, _, _, _) =>
      forall token | token in next.signed && token.sub == user ensures !Live(next.jwt, token.jti, next.now) {
        assert token in store.signed;
      }
    case Rotate(spent, known, _, _, _, _) =>
      if Authenticate(store, spent, Refresh, known).Ok? {
        assert spent.sub != user;
        forall token | token in next.signed && token.sub == user ensures !Live(next.jwt, token.jti, next.now) {
          assert token in store.signed;
        }
      }
    case LogoutWith(_) =>
    case LogoutEverywhere(_) =>
  }

  /**
    Revoking a user's tokens leaves none that is accepted, and none becomes
    acceptable until that user logs in again, refreshes included.
   */
  lemma {:induction false} OustedUntilLogin(store: Store, ops: seq<Operation>, refreshTtl: int, user: UserId)
    requires Ousted(store, user) && PossibleRun(store, ops, refreshTtl)
    requires forall op <- ops :: !LogsIn(op, user)
    ensures Ousted(Run(store, ops, refreshTtl), user)
    decreases |ops|
  {
    if ops != [] {
      OustedStep(store, ops[0], refreshTtl, user);
      OustedUntilLogin(Apply(store, ops[0], refreshTtl), ops[1..], refreshTtl, user);
    }
  }

  lemma LogoutEverywhereHolds(store: Store, ops: seq<Operation>, refreshTtl: int, user: UserId, token: Token, kind: Kind, known: bool)
    requires Sound(store, refreshTtl) && token.sub == user
    requires PossibleRun(RevokeUser(store, user), ops, refreshTtl) && forall op <- ops :: !LogsIn(op, user)
    ensures Authenticate(Run(RevokeUser(store, user), ops, refreshTtl), token, kind, known).Err?
  {
    var next := RevokeUser(store, user);
    forall t | t in next.signed && t.sub == user ensures !Live(next.jwt, t.jti, next.now) {
      if Live(store.jwt, t.jti, store.now) {
        var owner :| owner in store.signed && owner.jti == t.jti && owner.sub == store.jwt[t.jti].value.userId;
        assert owner == t;
      }
    }
    OustedUntilLogin(next, ops, refreshTtl, user);
  }

  /** The store after a login, a pause and a logout everywhere. */
  function OustedAfter(store: Store, login: Operation, refreshTtl: int, pause: nat): Store
    requires login.Login?
  {
    RevokeUser(Apply(Apply(store, login, refreshTtl), Elapse(pause), refreshTtl), login.user)
  }

  function PairOf(store: Store, login: Operation, refreshTtl: int): Pair
    requires login.Login?
  {
    SignedPair(login.user, login.accessJti, login.refreshJti, login.csrf, store.now, login.accessTtl, refreshTtl)
  }

  lemma LongAccessEscapes(store: Store, login: Operation, refreshTtl: int)
    requires 0 < refreshTtl && login.Login? && refreshTtl < login.accessTtl && Possible(store, login)
    ensures Authenticate(OustedAfter(store, login, refreshTtl, refreshTtl), PairOf(store, login, refreshTtl).access, Access, true).Ok?
  {
    var issued := Apply(store, login, refreshTtl);
    var later := Apply(issued, Elapse(refreshTtl), refreshTtl);
    assert issued.userTokens[login.user].expires == Some(store.now + refreshTtl);
    assert Members(later, login.user) == {};
    assert RevokeUser(later, login.user).jwt == later.jwt;
  }

  lemma ShortAccessRevoked(store: Store, login: Operation, refreshTtl: int, pause: nat)
    requires 0 < refreshTtl && Sound(store, refreshTtl) && login.Login? && login.accessTtl <= refreshTtl && Possible(store, login)
    ensures Authenticate(OustedAfter(store, login, refreshTtl, pause), PairOf(store, login, refreshTtl).access, Access, true).Err?
  {
    SoundStep(store, login, refreshTtl);
    SoundStep(Apply(store, login, refreshTtl), Elapse(pause), refreshTtl);
    LogoutEverywhereHolds(Apply(Apply(store, login, refreshTtl), Elapse(pause), refreshTtl), [], refreshTtl, login.user,
                          PairOf(store, login, refreshTtl).access, Access, true);
  }

  /**
    Storing the refresh token resets the expiry of the index, so an access token
    may not outlive it: logging out everywhere revokes it at every later moment
    exactly when the access time to live is no longer than the refresh one.
   */
  lemma IndexNeedsShortAccess(store: Store, login: Operation, refreshTtl: int)
    requires refreshTtl > 0 && Sound(store, refreshTtl) && login.Login? && Possible(store, login)
    ensures
      (forall pause: nat ::
         Authenticate(OustedAfter(store, login, refreshTtl, pause), PairOf(store, login, refreshTtl).access, Access, true).Err?)
      <==> login.accessTtl <= refreshTtl
  {
    if login.accessTtl <= refreshTtl {
      forall pause: nat
        ensures Authenticate(OustedAfter(store, login, refreshTtl, pause), PairOf(store, login, refreshTtl).access, Access, true).Err?
      {
        ShortAccessRevoked(store, login, refreshTtl, pause);
      }
    } else {
      LongAccessEscapes(store, login, refreshTtl);
    }
  }

  // ---------------------------------------------------------------------------
  // The module as it runs
  // ---------------------------------------------------------------------------

  class SessionStore {
    const refreshDays: nat
    const defaultAccessMinutes: int
    var now: int
    var jwt: Keyspace<Jti, StoredSession>
    var userTokens: Keyspace<UserId, set<Jti>>
    ghost var signed: set<Token>

    constructor (refreshDays: nat, defaultAccessMinutes: int)
      requires refreshDays > 0
      ensures this.refreshDays == refreshDays && this.defaultAccessMinutes == defaultAccessMinutes
      ensures View() == Store(0, map[], map[], {})
    {
      this.refreshDays, this.defaultAccessMinutes := refreshDays, defaultAccessMinutes;
      now, jwt, userTokens, signed := 0, map[], map[], {};
    }

    ghost function View(): Store
      reads this
    {
      Store(now, jwt, userTokens, signed)
    }

    /** `_store_token`: three Redis commands; a refused SETEX raises before the others run. */
    method PutToken(token: Token, csrf: string, ttl: int) returns (stored: bool)
      modifies this
      ensures now == old(now) && stored == (ttl > 0)
      ensures View() == if stored then StoreToken(old(View()), token, csrf, ttl, refreshDays * DAY) else old(View())
    {
      if ttl <= 0 {
        return false;
      }
      jwt := jwt[token.jti := Timed(StoredSession(token.sub, csrf, token.typ), Some(now + ttl))];
      var members := if token.sub in userTokens && userTokens[token.sub].LiveAt(now)
                     then userTokens[token.sub] else Timed({}, None);
      userTokens := userTokens[token.sub := members.(value := members.value + {token.jti})];
      var ttlOfIndex := Max(ttl, refreshDays * DAY);
      userTokens := userTokens[token.sub := userTokens[token.sub].(expires := Some(now + ttlOfIndex))];
      signed := signed + {token};
      return true;
    }

    /** `_revoke_jti`; without a user id the stored session names the user. */
    method DropToken(jti: Jti, user: Option<UserId>)
      modifies this
      ensures
        var owner := if user.Some? then user
                     else if Live(old(jwt), jti, now) then Some(old(jwt)[jti].value.userId) else None;
        View() == if owner.Some? then RevokeJti(old(View()), jti, owner.value) else old(View()).(jwt := old(jwt) - {jti})
    {
      var owner := user;
      if owner.None? && jti in jwt && jwt[jti].LiveAt(now) {
        owner := Some(jwt[jti].value.userId);
      }
      jwt := jwt - {jti};
      if owner.Some? && owner.value in userTokens && userTokens[owner.value].LiveAt(now) {
        var rest := userTokens[owner.value].value - {jti};
        if rest == {} {
          userTokens := userTokens - {owner.value};
        } else {
          userTokens := userTokens[owner.value := userTokens[owner.value].(value := rest)];
        }
      }
    }

    /** `revoke_user_tokens`. */
    method RevokeUserTokens(user: UserId)
      modifies this
      ensures View() == RevokeUser(old(View()), user)
    {
      if user in userTokens && userTokens[user].LiveAt(now) {
        jwt := jwt - userTokens[user].value;
      }
      userTokens := userTokens - {user};
    }

    /** `issue_session`: the store gains both tokens, or the TTL is refused and nothing changes. */
    method IssueSession(user: UserId, accessMinutes: Option<int>, accessJti: Jti, refreshJti: Jti, csrf: string)
      returns (result: Result<Pair, AuthError>)
      requires refreshDays > 0
      modifies this
      ensures now == old(now)
      ensures
        var accessTtl := accessMinutes.GetOr(defaultAccessMinutes) * 60;
        var pair := SignedPair(user, accessJti, refreshJti, csrf, now, accessTtl, refreshDays * DAY);
        if accessTtl > 0 then result == Ok(pair) && View() == Issue(old(View()), pair, accessTtl, refreshDays * DAY)
        else result == Err(InvalidTtl) && View() == old(View())
    {
      var accessTtl := accessMinutes.GetOr(defaultAccessMinutes) * 60;
      var refreshTtl := refreshDays * DAY;
      var access := Token(user, accessJti, now + accessTtl, Access);
      var refresh := Token(user, refreshJti, now + refreshTtl, Refresh);
      var stored := PutToken(access, csrf, accessTtl);
      if !stored {
        return Err(InvalidTtl);
      }
      stored := PutToken(refresh, csrf, refreshTtl);
      return Ok(Pair(access, refresh, csrf));
    }

    /** `_user_from_token`; `genuine` says whether the signature verifies. */
    method UserFromToken(token: Token, genuine: bool, kind: Kind, known: bool) returns (result: Result<UserId, AuthError>)
      requires genuine <==> token in signed
      ensures result == Authenticate(View(), token, kind, known)
      ensures result.Ok? <==> token in signed && now < token.exp && token.typ == kind && Live(jwt, token.jti, now) && known
      ensures result.Ok? ==> result.value == token.sub
      ensures result == Err(TokenExpired) <==>
        token in signed && (token.exp <= now || (token.typ == kind && !Live(jwt, token.jti, now)))
      ensures result == Err(AccountUnavailable) <==>
        token in signed && now < token.exp && token.typ == kind && Live(jwt, token.jti, now) && !known
    {
      if !genuine { return Err(AuthenticationRequired); }
      if token.exp <= now { return Err(TokenExpired); }
      if token.typ != kind { return Err(AuthenticationRequired); }
      if !(token.jti in jwt && jwt[token.jti].LiveAt(now)) { return Err(TokenExpired); }
      if !known { return Err(AccountUnavailable); }
      return Ok(token.sub);
    }

    /** `delete_session`: both presented tokens are revoked, forged ones are skipped. */
    method DeleteSession(access: Option<Token>, accessGenuine: bool, refresh: Option<Token>, refreshGenuine: bool)
      requires access.Some? ==> (accessGenuine <==> access.value in signed)
      requires refresh.Some? ==> (refreshGenuine <==> refresh.value in signed)
      modifies this
      ensures
        var afterAccess := if access.Some? then Logout(old(View()), access.value) else old(View());
        View() == if refresh.Some? then Logout(afterAccess, refresh.value) else afterAccess
    {
      if access.Some? && accessGenuine {
        DropToken(access.value.jti, Some(access.value.sub));
      }
      if refresh.Some? && refreshGenuine {
        DropToken(refresh.value.jti, Some(refresh.value.sub));
      }
    }

    /** `refresh_session`: the presented refresh token is spent before a new pair is issued. */
    method RefreshSession(cookie: Option<Token>, genuine: bool, known: bool, accessMinutes: Option<int>,
                          accessJti: Jti, refreshJti: Jti, csrf: string)
      returns (result: Result<Pair, AuthError>)
      requires cookie.Some? ==> (genuine <==> cookie.value in signed)
      requires refreshDays > 0
      modifies this
      ensures cookie.None? ==> result == Err(TokenExpired) && View() == old(View())
      ensures cookie.Some? ==>
        var accessTtl := accessMinutes.GetOr(defaultAccessMinutes) * 60;
        var check := Authenticate(old(View()), cookie.value, Refresh, known);
        if check.Err? then result == Err(check.error) && View() == old(View())
        else if accessTtl <= 0 then
          result == Err(InvalidTtl) && View() == RevokeJti(old(View()), cookie.value.jti, cookie.value.sub)
        else
          && result == Ok(SignedPair(cookie.value.sub, accessJti, refreshJti, csrf, now, accessTtl, refreshDays * DAY))
          && View() == Apply(old(View()), Rotate(cookie.value, known, accessJti, refreshJti, csrf, accessTtl), refreshDays * DAY)
    {
      if cookie.None? {
        return Err(TokenExpired);
      }
      var check := UserFromToken(cookie.value, genuine, Refresh, known);
      if check.Err? {
        return Err(check.error);
      }
      DropToken(cookie.value.jti, Some(check.value));
      result := IssueSession(check.value, accessMinutes, accessJti, refreshJti, csrf);
    }
  }
}
