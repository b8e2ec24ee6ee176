/** Requests against accounts, the shared store and the clock: the JWT guard, logout, and the admin operations that
    must keep the cached `isActive` flag honest.  A token stands for its verified payload and its text. */
module Sessions {
  import opened Wrappers
  import opened RedisService

  datatype Account = Account(isActive: bool, deleted: bool, refreshHash: Option<string>)

  /** `exp` is in seconds (section 4.1.4 of RFC 7519); `jti` is section 4.1.7. */
  datatype Token = Token(jti: string, sub: string, exp: Option<nat>, text: string)

  /** What bcrypt reads of a text, its first 72 bytes.  It stands for the salted hash; the comparison succeeds if and
      only if these agree. */
  function Digest(text: string): string {
    if |text| <= 72 then text else text[..72]
  }

  datatype State = State(accounts: map<string, Account>, store: Store)

  datatype Outcome = Granted | Unauthorized(reason: Reason) | Forbidden

  datatype Reason = NoToken | Expired | Revoked | NoSession | Mismatch

  /** `jsonwebtoken` rejects from the second `exp` on. */
  predicate Verifies(token: Token, now: nat) {
    token.exp.None? || now / 1000 < token.exp.value
  }

  /** The guard's own test for access tokens still admits the second `exp` itself. */
  predicate IsExpired(token: Token, now: nat) {
    token.exp.Some? && token.exp.value < now / 1000
  }

  const SEVEN_DAYS_MS := 7 * 24 * 60 * 60 * 1000

  /** The time to live of a rotated token's blacklist entry; an absent or zero `exp` is falsy. */
  function RotationTtl(token: Token, now: nat): int {
    if token.exp.Some? && token.exp.value != 0 then (token.exp.value - now / 1000) * 1000 else SEVEN_DAYS_MS
  }

  /** What the environment decides about one silent refresh: the text of the new refresh token, and how long the request
      takes from verification to the blacklist write. */
  datatype Refreshing = Refreshing(newToken: string, delay: nat)

  /** The checks of `handleSilentRefresh` in order. */
  function RefreshOutcome(st: State, token: Option<Token>, now: nat): Outcome {
    if token.None? then Unauthorized(NoToken)
    else if !Verifies(token.value, now) then Unauthorized(Expired)
    else if IsBlacklisted(st.store, token.value.jti, now) then Unauthorized(Revoked)
    else if token.value.sub !in st.accounts || st.accounts[token.value.sub].refreshHash.None? then
      Unauthorized(NoSession)
    else if !st.accounts[token.value.sub].isActive then Forbidden
    else if Digest(token.value.text) != st.accounts[token.value.sub].refreshHash.value then Unauthorized(Mismatch)
    else Granted
  }

  function Rotated(st: State, token: Token, env: Refreshing, now: nat): State
    requires token.sub in st.accounts
  {
    var later := now + env.delay;
    var account := st.accounts[token.sub];
    State(st.accounts[token.sub := account.(refreshHash := Some(Digest(env.newToken)))],
          CacheActive(Blacklisted(st.store, token.jti, RotationTtl(token, later), later), token.sub, account.isActive,
            later))
  }

  function Refresh(st: State, token: Option<Token>, env: Refreshing, now: nat): State {
    if RefreshOutcome(st, token, now).Granted? then Rotated(st, token.value, env, now) else st
  }

  /** `assertActive`: an unknown account passes, and a soft-deleted one is looked up like any other. */
  function ActiveOutcome(st: State, userId: string, now: nat): Outcome {
    match CachedActive(st.store, userId, now)
    case Some(cached) => if cached then Granted else Forbidden
    case None => if userId in st.accounts && !st.accounts[userId].isActive then Forbidden else Granted
  }

  function AssertActive(st: State, userId: string, now: nat): State {
    if CachedActive(st.store, userId, now).None? && userId in st.accounts
    then st.(store := CacheActive(st.store, userId, st.accounts[userId].isActive, now))
    else st
  }

  function AccessOutcome(st: State, access: Option<Token>, refresh: Option<Token>, now: nat): Outcome {
    if access.None? then Unauthorized(NoToken)
    else if IsBlacklisted(st.store, access.value.jti, now) then Unauthorized(Revoked)
    else if !IsExpired(access.value, now) then ActiveOutcome(st, access.value.sub, now)
    else RefreshOutcome(st, refresh, now)
  }

  function Access(st: State, access: Option<Token>, refresh: Option<Token>, env: Refreshing, now: nat): State {
    if access.None? || IsBlacklisted(st.store, access.value.jti, now) then st
    else if !IsExpired(access.value, now) then AssertActive(st, access.value.sub, now)
    else Refresh(st, refresh, env, now)
  }

  function BlacklistToken(store: Store, token: Token, now: nat): Store {
    if token.exp.Some? && token.exp.value != 0
    then Blacklisted(store, token.jti, (token.exp.value - now / 1000) * 1000, now) else store
  }

  /** Clearing the stored hash throws for an unknown user, before anything is blacklisted.  The access token is decoded
      without its expiry, the refresh token with it. */
  function Logout(st: State, userId: string, access: Option<Token>, refresh: Option<Token>, now: nat): State {
    if userId !in st.accounts then st
    else
      var store := if access.Some? then BlacklistToken(st.store, access.value, now) else st.store;
      State(st.accounts[userId := st.accounts[userId].(refreshHash := None)],
            if refresh.Some? && Verifies(refresh.value, now) then BlacklistToken(store, refresh.value, now) else store)
  }

  /** A successful login stores the hash of a new refresh token.  Deleted accounts are not found; only the password
      login asks for the active flag. */
  function Login(st: State, userId: string, newToken: string, byWallet: bool): State {
    if userId in st.accounts && !st.accounts[userId].deleted && (byWallet || st.accounts[userId].isActive)
    then st.(accounts := st.accounts[userId := st.accounts[userId].(refreshHash := Some(Digest(newToken)))]) else st
  }

  datatype AdminError = OwnAccount | NotFound | AlreadyDone

  predicate AdminRefuses(st: State, id: string, requester: string, already: Account -> bool) {
    id == requester || id !in st.accounts || already(st.accounts[id])
  }

  /** `activate` and `deactivate`. */
  function SetActive(st: State, id: string, requester: string, isActive: bool): State {
    if AdminRefuses(st, id, requester, (a: Account) => a.isActive == isActive) then st
    else State(st.accounts[id := st.accounts[id].(isActive := isActive)], st.store - {ActiveKey(id)})
  }

  function SoftDelete(st: State, id: string, requester: string): State {
    if AdminRefuses(st, id, requester, (a: Account) => a.deleted) then st
    else State(st.accounts[id := st.accounts[id].(deleted := true)], st.store - {ActiveKey(id)})
  }

  function Restore(st: State, id: string, now: nat): State {
    if id !in st.accounts || !st.accounts[id].deleted then st
    else
      State(st.accounts[id := st.accounts[id].(deleted := false)],
            CacheActive(st.store, id, st.accounts[id].isActive, now))
  }

  // ---------------------------------------------------------------------------------------------
  // Runs of whole requests
  // ---------------------------------------------------------------------------------------------

  datatype Request =
    | Tick(ms: nat)
    | SignUp(userId: string, newToken: string)
    | SignIn(userId: string, newToken: string, byWallet: bool)
    | UseToken(access: Option<Token>, refresh: Option<Token>, env: Refreshing)
    | SignOut(userId: string, access: Option<Token>, refresh: Option<Token>)
    | Switch(id: string, requester: string, isActive: bool)
    | Delete(id: string, requester: string)
    | Undelete(id: string)

  datatype World = World(state: State, now: nat)

  function Step(w: World, request: Request): World {
    var st, now := w.state, w.now;
    match request
    case Tick(ms) => World(st, now + ms)
    case SignUp(userId, newToken) =>
      if userId in st.accounts then w
      else World(st.(accounts := st.accounts[userId := Account(true, false, Some(Digest(newToken)))]), now)
    case SignIn(userId, newToken, byWallet) => World(Login(st, userId, newToken, byWallet), now)
    case UseToken(access, refresh, env) => World(Access(st, access, refresh, env, now), now + env.delay)
    case SignOut(userId, access, refresh) => World(Logout(st, userId, access, refresh, now), now)
    case Switch(id, requester, isActive) => World(SetActive(st, id, requester, isActive), now)
    case Delete(id, requester) => World(SoftDelete(st, id, requester), now)
    case Undelete(id) => World(Restore(st, id, now), now)
  }

  function Run(w: World, requests: seq<Request>): World
    decreases |requests|
  {
    if requests == [] then w else Run(Step(w, requests[0]), requests[1..])
  }

  // ---------------------------------------------------------------------------------------------
  // The isActive cache
  // ---------------------------------------------------------------------------------------------

  /** A live entry always equals the account's flag. */
  ghost predicate CacheHonest(w: World) {
    forall id {:trigger id in w.state.accounts} {:trigger ActiveKey(id)} ::
      Live(w.state.store, ActiveKey(id), w.now) ==>
      && id in w.state.accounts
      && w.state.store[ActiveKey(id)].value == (if w.state.accounts[id].isActive then "1" else "0")
  }

  /** The store changed in the entry of one user only, apart from the blacklist. */
  ghost predicate OnlyActiveEntry(before: Store, after: Store, id: string) {
    forall other :: other != id ==>
      (ActiveKey(other) in after <==> ActiveKey(other) in before) &&
      (ActiveKey(other) in after ==> after[ActiveKey(other)] == before[ActiveKey(other)])
  }

  ghost predicate SameActiveEntries(before: Store, after: Store) {
    forall id :: (ActiveKey(id) in after <==> ActiveKey(id) in before) &&
      (ActiveKey(id) in after ==> after[ActiveKey(id)] == before[ActiveKey(id)])
  }

  lemma BlacklistKeepsActive(store: Store, jti: string, ttlMs: int, now: nat)
    ensures SameActiveEntries(store, Blacklisted(store, jti, ttlMs, now))
  {
    forall id ensures ActiveKey(id) != BlacklistKey(jti) {
      KeysAreSeparate(jti, id);
    }
  }

  lemma WriteIsOnlyActiveEntry(store: Store, id: string, isActive: bool, now: nat)
    ensures OnlyActiveEntry(store, CacheActive(store, id, isActive, now), id)
    ensures OnlyActiveEntry(store, store - {ActiveKey(id)}, id)
  {
    forall other | other != id ensures ActiveKey(other) != ActiveKey(id) {
      KeysAreSeparate(other, id);
    }
  }

  lemma HonestAfterOtherStore(w: World, store: Store, now: nat)
    requires CacheHonest(w) && SameActiveEntries(w.state.store, store) && w.now <= now
    ensures CacheHonest(World(w.state.(store := store), now))
  {
    forall id | Live(store, ActiveKey(id), now) ensures Live(w.state.store, ActiveKey(id), w.now) {
    }
  }

  lemma HonestAfterEntry(w: World, accounts: map<string, Account>, store: Store, id: string, now: nat)
    requires CacheHonest(w) && w.now <= now && OnlyActiveEntry(w.state.store, store, id)
    requires forall other :: other != id && other in w.state.accounts ==>
               other in accounts && accounts[other].isActive == w.state.accounts[other].isActive
    requires ActiveKey(id) in store ==>
               id in accounts && store[ActiveKey(id)].value == (if accounts[id].isActive then "1" else "0")
    ensures CacheHonest(World(State(accounts, store), now))
  {
    forall other | other != id && Live(store, ActiveKey(other), now)
      ensures Live(w.state.store, ActiveKey(other), w.now) {
    }
  }

  /** Changes of accounts that keep every flag. */
  lemma HonestAfterAccounts(w: World, accounts: map<string, Account>)
    requires CacheHonest(w)
    requires forall id :: id in w.state.accounts ==>
      id in accounts && accounts[id].isActive == w.state.accounts[id].isActive
    ensures CacheHonest(World(w.state.(accounts := accounts), w.now))
  {
  }

  lemma AccessKeepsHonest(w: World, userId: string, now: nat)
    requires CacheHonest(w) && now == w.now
    ensures CacheHonest(World(AssertActive(w.state, userId, now), now))
  {
    if CachedActive(w.state.store, userId, now).None? && userId in w.state.accounts {
      WriteIsOnlyActiveEntry(w.state.store, userId, w.state.accounts[userId].isActive, now);
      HonestAfterEntry(w, w.state.accounts, AssertActive(w.state, userId, now).store, userId, now);
    }
  }

  lemma CachingIsHonest(w: World, accounts: map<string, Account>, id: string)
    requires CacheHonest(w) && id in w.state.accounts && id in accounts
    requires accounts[id].isActive == w.state.accounts[id].isActive
    requires accounts == w.state.accounts[id := accounts[id]]
    ensures CacheHonest(World(State(accounts, CacheActive(w.state.store, id, accounts[id].isActive, w.now)), w.now))
  {
    var store := CacheActive(w.state.store, id, accounts[id].isActive, w.now);
    WriteIsOnlyActiveEntry(w.state.store, id, accounts[id].isActive, w.now);
    HonestAfterEntry(w, accounts, store, id, w.now);
  }

  lemma RotationKeepsHonest(w: World, token: Token, env: Refreshing)
    requires CacheHonest(w) && token.sub in w.state.accounts
    ensures CacheHonest(World(Rotated(w.state, token, env, w.now), w.now + env.delay))
  {
    var later, account := w.now + env.delay, w.state.accounts[token.sub];
    var blacklisted := Blacklisted(w.state.store, token.jti, RotationTtl(token, later), later);
    BlacklistKeepsActive(w.state.store, token.jti, RotationTtl(token, later), later);
    HonestAfterOtherStore(w, blacklisted, later);
    CachingIsHonest(World(w.state.(store := blacklisted), later),
                    w.state.accounts[token.sub := account.(refreshHash := Some(Digest(env.newToken)))], token.sub);
  }

  lemma LaterIsHonest(w: World, now: nat)
    requires CacheHonest(w) && w.now <= now
    ensures CacheHonest(World(w.state, now))
  {
    HonestAfterOtherStore(w, w.state.store, now);
  }

  lemma LogoutKeepsHonest(w: World, userId: string, access: Option<Token>, refresh: Option<Token>)
    requires CacheHonest(w)
    ensures CacheHonest(World(Logout(w.state, userId, access, refresh, w.now), w.now))
  {
    var after := Logout(w.state, userId, access, refresh, w.now);
    forall token: Token, store: Store ensures SameActiveEntries(store, BlacklistToken(store, token, w.now)) {
      if token.exp.Some? && token.exp.value != 0 {
        BlacklistKeepsActive(store, token.jti, (token.exp.value - w.now / 1000) * 1000, w.now);
      }
    }
    var store := if access.Some? then BlacklistToken(w.state.store, access.value, w.now) else w.state.store;
    assert SameActiveEntries(w.state.store, store) && SameActiveEntries(store, after.store);
    HonestAfterOtherStore(w, store, w.now);
    HonestAfterOtherStore(World(w.state.(store := store), w.now), after.store, w.now);
    HonestAfterAccounts(World(w.state.(store := after.store), w.now), after.accounts);
  }

  lemma UseKeepsHonest(w: World, access: Option<Token>, refresh: Option<Token>, env: Refreshing)
    requires CacheHonest(w)
    ensures CacheHonest(World(Access(w.state, access, refresh, env, w.now), w.now + env.delay))
  {
    var st, now := w.state, w.now;
    if access.None? || IsBlacklisted(st.store, access.value.jti, now) {
      LaterIsHonest(w, now + env.delay);
    } else if !IsExpired(access.value, now) {
      AccessKeepsHonest(w, access.value.sub, now);
      LaterIsHonest(World(AssertActive(st, access.value.sub, now), now), now + env.delay);
    } else if RefreshOutcome(st, refresh, now).Granted? {
      RotationKeepsHonest(w, refresh.value, env);
    } else {
      LaterIsHonest(w, now + env.delay);
    }
  }

  lemma AdminKeepsHonest(w: World, id: string, requester: string, isActive: bool)
    requires CacheHonest(w)
    ensures CacheHonest(World(SetActive(w.state, id, requester, isActive), w.now))
    ensures CacheHonest(World(SoftDelete(w.state, id, requester), w.now))
    ensures CacheHonest(World(Restore(w.state, id, w.now), w.now))
  {
    WriteIsOnlyActiveEntry(w.state.store, id, isActive, w.now);
    var switched, deleted := SetActive(w.state, id, requester, isActive), SoftDelete(w.state, id, requester);
    var restored := Restore(w.state, id, w.now);
    if switched != w.state { HonestAfterEntry(w, switched.accounts, switched.store, id, w.now); }
    if deleted != w.state { HonestAfterEntry(w, deleted.accounts, deleted.store, id, w.now); }
    if restored != w.state {
      WriteIsOnlyActiveEntry(w.state.store, id, w.state.accounts[id].isActive, w.now);
      HonestAfterEntry(w, restored.accounts, restored.store, id, w.now);
    }
  }

  /** With whole requests as steps the cache never lies. */
  lemma StepKeepsHonest(w: World, request: Request)
    requires CacheHonest(w)
    ensures CacheHonest(Step(w, request))
  {
    match request
    case Tick(ms) => LaterIsHonest(w, w.now + ms);
    case SignUp(userId, newToken) => HonestAfterAccounts(w, Step(w, request).state.accounts);
    case SignIn(userId, newToken, _) => HonestAfterAccounts(w, Step(w, request).state.accounts);
    case UseToken(access, refresh, env) => UseKeepsHonest(w, access, refresh, env);
    case SignOut(userId, access, refresh) => LogoutKeepsHonest(w, userId, access, refresh);
    case Switch(id, requester, isActive) => AdminKeepsHonest(w, id, requester, isActive);
    case Delete(id, requester) => AdminKeepsHonest(w, id, requester, true);
    case Undelete(id) => AdminKeepsHonest(w, id, "", true);
  }

  /** In every reachable world the guard's decision on an unexpired token is the account's flag itself.  Deletion does
      not enter into it: against the comment in `softDelete`, a soft-deleted active account is still admitted. */
  lemma {:induction false} GuardFollowsFlag(w: World, requests: seq<Request>, userId: string)
    requires CacheHonest(w)
    ensures CacheHonest(Run(w, requests))
    ensures
      var w' := Run(w, requests);
      ActiveOutcome(w'.state, userId, w'.now).Granted? <==>
        (userId in w'.state.accounts ==> w'.state.accounts[userId].isActive)
    decreases |requests|
  {
    if requests != [] {
      StepKeepsHonest(w, requests[0]);
      GuardFollowsFlag(Step(w, requests[0]), requests[1..], userId);
    } else {
    }
  }

  lemma DeletedButAdmitted(w: World, id: string, requester: string)
    requires CacheHonest(w) && id != requester && id in w.state.accounts
    requires !w.state.accounts[id].deleted
    ensures
      var w' := Step(w, Delete(id, requester));
      && w'.state.accounts[id].deleted
      && (ActiveOutcome(w'.state, id, w'.now).Granted? <==> w.state.accounts[id].isActive)
  {
    StepKeepsHonest(w, Delete(id, requester));
    GuardFollowsFlag(Step(w, Delete(id, requester)), [], id);
  }

  // ---------------------------------------------------------------------------------------------
  // Refresh tokens are used once
  // ---------------------------------------------------------------------------------------------

  /** The token passes the two checks that do not depend on the account. */
  predicate Usable(store: Store, token: Token, now: nat) {
    Verifies(token, now) && !IsBlacklisted(store, token.jti, now)
  }

  /** The token is past its life, or blacklisted at least until then. */
  ghost predicate Covered(store: Store, token: Token, now: nat) {
    && token.exp.Some?
    && (now >= token.exp.value * 1000 ||
        (BlacklistKey(token.jti) in store && store[BlacklistKey(token.jti)].expiresAt >= token.exp.value * 1000))
  }

  lemma CoveredIsNotUsable(store: Store, token: Token, now: nat)
    requires Covered(store, token, now)
    ensures !Usable(store, token, now)
  {
  }

  /** The time to live, counted from the floored second and rounded up, reaches the end of the token's life. */
  lemma EntryOutlivesToken(store: Store, token: Token, now: nat)
    requires token.exp.Some? && token.exp.value != 0
    ensures Covered(Blacklisted(store, token.jti, (token.exp.value - now / 1000) * 1000, now), token, now)
  {
  }

  /** Every token with this `jti` is this token. */
  predicate Unmistaken(request: Request, token: Token) {
    match request
    case UseToken(access, refresh, env) => Only(access, token) && Only(refresh, token)
    case SignOut(userId, access, refresh) => Only(access, token) && Only(refresh, token)
    case _ => true
  }

  predicate Only(other: Option<Token>, token: Token) {
    other.Some? && other.value.jti == token.jti ==> other.value == token
  }

  lemma BlacklistKeepsCovered(store: Store, other: Token, token: Token, now: nat)
    requires Covered(store, token, now) && Only(Some(other), token)
    ensures Covered(BlacklistToken(store, other, now), token, now)
  {
    KeysAreSeparate(other.jti, token.jti);
  }

  lemma RotationKeepsCovered(st: State, other: Token, env: Refreshing, token: Token, now: nat)
    requires Covered(st.store, token, now) && Only(Some(other), token) && other.sub in st.accounts
    ensures Covered(Rotated(st, other, env, now).store, token, now + env.delay)
  {
    KeysAreSeparate(other.jti, token.jti);
    KeysAreSeparate(token.jti, other.sub);
  }

  lemma StepKeepsCovered(w: World, request: Request, token: Token)
    requires Covered(w.state.store, token, w.now) && Unmistaken(request, token)
    ensures Covered(Step(w, request).state.store, token, Step(w, request).now)
  {
    match request
    case UseToken(access, refresh, env) =>
      if access.Some? { KeysAreSeparate(token.jti, access.value.sub); }
      if RefreshOutcome(w.state, refresh, w.now).Granted? {
        RotationKeepsCovered(w.state, refresh.value, env, token, w.now);
      }
    case SignOut(userId, access, refresh) =>
      var store := if access.Some? then BlacklistToken(w.state.store, access.value, w.now) else w.state.store;
      if access.Some? { BlacklistKeepsCovered(w.state.store, access.value, token, w.now); }
      if refresh.Some? { BlacklistKeepsCovered(store, refresh.value, token, w.now); }
    case Switch(id, requester, isActive) => KeysAreSeparate(token.jti, id);
    case Delete(id, requester) => KeysAreSeparate(token.jti, id);
    case Undelete(id) => KeysAreSeparate(token.jti, id);
    case _ =>
  }

  lemma {:induction false} CoveredForever(w: World, requests: seq<Request>, token: Token)
    requires Covered(w.state.store, token, w.now)
    requires forall i :: 0 <= i < |requests| ==> Unmistaken(requests[i], token)
    ensures Covered(Run(w, requests).state.store, token, Run(w, requests).now)
    decreases |requests|
  {
    if requests != [] {
      StepKeepsCovered(w, requests[0], token);
      CoveredForever(Step(w, requests[0]), requests[1..], token);
    }
  }

  /** The request rotated the token, or logged out with it while it still verified. */
  predicate Consumes(w: World, request: Request, token: Token) {
    match request
    case UseToken(access, refresh, env) =>
      && refresh == Some(token) && access.Some? && !IsBlacklisted(w.state.store, access.value.jti, w.now)
      && IsExpired(access.value, w.now) && RefreshOutcome(w.state, refresh, w.now).Granted?
    case SignOut(userId, access, refresh) =>
      userId in w.state.accounts && refresh == Some(token) && Verifies(token, w.now)
    case _ => false
  }

  /** Single use: a refresh token with an expiry that was consumed once is rejected by every later refresh, as expired
      or as revoked, before any account or hash is looked at. */
  lemma ConsumedOnce(w: World, request: Request, requests: seq<Request>, token: Token)
    requires token.exp.Some? && Consumes(w, request, token)
    requires forall i :: 0 <= i < |requests| ==> Unmistaken(requests[i], token)
    ensures
      var w' := Run(Step(w, request), requests);
      RefreshOutcome(w'.state, Some(token), w'.now) in {Unauthorized(Expired), Unauthorized(Revoked)}
  {
    match request {
      case UseToken(access, refresh, env) =>
        var later := w.now + env.delay;
        EntryOutlivesToken(w.state.store, token, later);
        KeysAreSeparate(token.jti, token.sub);
      case SignOut(userId, access, refresh) =>
        var store := if access.Some? then BlacklistToken(w.state.store, access.value, w.now) else w.state.store;
        EntryOutlivesToken(store, token, w.now);
    }
    var w' := Step(w, request);
    assert Covered(w'.state.store, token, w'.now);
    CoveredForever(w', requests, token);
    CoveredIsNotUsable(Run(w', requests).state.store, token, Run(w', requests).now);
  }

  /** A rotated token stays unusable for all time if and only if it carries an expiry: without one the entry is written
      for seven days, and after those the blacklist no longer knows the token.  The guard provides for such a token, but
      the token service signs every refresh token with a life time. */
  lemma UnusableForeverIffExpires(st: State, token: Token, env: Refreshing, now: nat)
    requires RefreshOutcome(st, Some(token), now).Granted?
    ensures token.exp.Some? <==>
      (forall t: nat :: t >= now + env.delay ==> !Usable(Rotated(st, token, env, now).store, token, t))
  {
    var later := now + env.delay;
    var store := Rotated(st, token, env, now).store;
    KeysAreSeparate(token.jti, token.sub);
    if token.exp.Some? {
      EntryOutlivesToken(st.store, token, later);
      assert Covered(store, token, later);
    } else {
      assert store[BlacklistKey(token.jti)].expiresAt == later + SEVEN_DAYS_MS;
      assert Usable(store, token, later + SEVEN_DAYS_MS);
    }
  }

  /** A logged-out access token is refused up to its expiry; in the second `exp` itself the guard still takes the token
      for unexpired, and refuses it exactly as long as the fraction of a second at which the logout happened.  The
      logout of an unknown user throws and leaves everything as it was. */
  lemma LoggedOutAccessTokenRefusedIff(st: State, userId: string, token: Token, now: nat, refresh: Option<Token>,
                                       t: nat)
    requires token.exp.Some? && now < token.exp.value * 1000 && now <= t
    ensures userId !in st.accounts ==> Logout(st, userId, Some(token), None, now) == st
    ensures userId in st.accounts ==>
      var store := Logout(st, userId, Some(token), None, now).store;
      (IsBlacklisted(store, token.jti, t) || IsExpired(token, t)) <==>
        (t < token.exp.value * 1000 + now % 1000 || t >= (token.exp.value + 1) * 1000)
    ensures userId in st.accounts ==>
      var after := Logout(st, userId, Some(token), None, now);
      AccessOutcome(after, Some(token), refresh, t) ==
        if t < token.exp.value * 1000 + now % 1000 then Unauthorized(Revoked)
        else if t < (token.exp.value + 1) * 1000 then ActiveOutcome(after, token.sub, t)
        else RefreshOutcome(after, refresh, t)
  {
  }
}
