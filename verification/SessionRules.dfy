/** What the session requests promise, without cache, key-value store or order of checks: accounts with the refresh
    token stored last, and the instants up to which tokens are revoked.  The guard keeps these rules over every run. */
module SessionRules {
  import opened Wrappers
  import opened RedisService
  import opened Sessions

  /** `current` is the text of the refresh token stored last, unless a logout came after it. */
  datatype Profile = Profile(isActive: bool, deleted: bool, current: Option<string>)

  datatype Book = Book(profiles: map<string, Profile>, revokedUntil: map<string, nat>, now: nat)

  predicate Revoked(b: Book, jti: string) {
    jti in b.revokedUntil && b.now < b.revokedUntil[jti]
  }

  predicate Unexpired(token: Token, now: nat) {
    token.exp.Some? ==> now < token.exp.value * 1000
  }

  predicate IsActive(b: Book, userId: string) {
    userId in b.profiles && b.profiles[userId].isActive
  }

  predicate IsCurrent(b: Book, token: Token) {
    && token.sub in b.profiles && b.profiles[token.sub].current.Some?
    && Digest(b.profiles[token.sub].current.value) == Digest(token.text)
  }

  /** The refresh token renews the session. */
  predicate Renews(b: Book, token: Token) {
    Unexpired(token, b.now) && !Revoked(b, token.jti) && IsActive(b, token.sub) && IsCurrent(b, token)
  }

  /** The access token counts as expired, from the end of the second `exp` on. */
  predicate IsPast(token: Token, now: nat) {
    token.exp.Some? && now >= (token.exp.value + 1) * 1000
  }

  /** Who the request is made for: the owner of the access token, or of the refresh token once that one is past. */
  predicate MayAct(b: Book, access: Token, refresh: Option<Token>) {
    if IsPast(access, b.now) then refresh.Some? && Renews(b, refresh.value)
    else access.sub in b.profiles ==> IsActive(b, access.sub)
  }

  predicate Admits(b: Book, access: Option<Token>, refresh: Option<Token>) {
    access.Some? && !Revoked(b, access.value.jti) && MayAct(b, access.value, refresh)
  }

  /** A token that is unexpired is revoked for the rest of its life, and the fraction of a second more. */
  function Revoking(until: map<string, nat>, token: Option<Token>, at: nat): map<string, nat> {
    if token.Some? && token.value.exp.Some? && at < token.value.exp.value * 1000
    then until[token.value.jti := token.value.exp.value * 1000 + at % 1000] else until
  }

  function Stored(b: Book, userId: string, current: Option<string>): map<string, Profile>
    requires userId in b.profiles
  {
    b.profiles[userId := b.profiles[userId].(current := current)]
  }

  function Renewed(b: Book, token: Token, env: Refreshing): Book
    requires token.sub in b.profiles
  {
    var later := b.now + env.delay;
    Book(Stored(b, token.sub, Some(env.newToken)),
         if token.exp.None? then b.revokedUntil[token.jti := later + 7 * 24 * 3_600_000]
         else Revoking(b.revokedUntil, Some(token), later),
         later)
  }

  predicate SignsIn(b: Book, userId: string, byWallet: bool) {
    userId in b.profiles && !b.profiles[userId].deleted && (byWallet || b.profiles[userId].isActive)
  }

  function Noted(b: Book, request: Request): Book {
    match request
    case Tick(ms) => b.(now := b.now + ms)
    case SignUp(userId, newToken) =>
      if userId in b.profiles then b
      else b.(profiles := b.profiles[userId := Profile(true, false, Some(newToken))])
    case SignIn(userId, newToken, byWallet) =>
      if SignsIn(b, userId, byWallet) then b.(profiles := Stored(b, userId, Some(newToken))) else b
    case UseToken(access, refresh, env) =>
      if Admits(b, access, refresh) && IsPast(access.value, b.now) then Renewed(b, refresh.value, env)
      else b.(now := b.now + env.delay)
    case SignOut(userId, access, refresh) =>
      if userId !in b.profiles then b
      else
        Book(Stored(b, userId, None), Revoking(Revoking(b.revokedUntil, access, b.now), refresh, b.now), b.now)
    case Switch(id, requester, isActive) =>
      if id !in b.profiles || id == requester then b
      else b.(profiles := b.profiles[id := b.profiles[id].(isActive := isActive)])
    case Delete(id, requester) =>
      if id !in b.profiles || id == requester then b
      else b.(profiles := b.profiles[id := b.profiles[id].(deleted := true)])
    case Undelete(id) =>
      if id !in b.profiles then b else b.(profiles := b.profiles[id := b.profiles[id].(deleted := false)])
  }

  function AllNoted(b: Book, requests: seq<Request>): Book
    decreases |requests|
  {
    if requests == [] then b else AllNoted(Noted(b, requests[0]), requests[1..])
  }

  // ---------------------------------------------------------------------------------------------
  // The guard keeps the rules
  // ---------------------------------------------------------------------------------------------

  function AccountOf(p: Profile): Account {
    Account(p.isActive, p.deleted, if p.current.Some? then Some(Digest(p.current.value)) else None)
  }

  ghost predicate SameAccounts(accounts: map<string, Account>, profiles: map<string, Profile>) {
    accounts == map u | u in profiles :: AccountOf(profiles[u])
  }

  ghost predicate SameRevocations(store: Store, until: map<string, nat>) {
    forall jti ::
      && (BlacklistKey(jti) in store <==> jti in until)
      && (jti in until ==> store[BlacklistKey(jti)].expiresAt == until[jti])
  }

  ghost predicate Agrees(w: World, b: Book) {
    && w.now == b.now && CacheHonest(w)
    && SameAccounts(w.state.accounts, b.profiles) && SameRevocations(w.state.store, b.revokedUntil)
  }

  lemma StoredAccount(accounts: map<string, Account>, profiles: map<string, Profile>, id: string, p: Profile)
    requires SameAccounts(accounts, profiles)
    ensures SameAccounts(accounts[id := AccountOf(p)], profiles[id := p])
    ensures id in accounts <==> id in profiles
    ensures id in profiles ==> accounts[id] == AccountOf(profiles[id])
  {
  }

  lemma WriteRevokes(store: Store, until: map<string, nat>, jti: string, ttlSeconds: nat, now: nat)
    requires SameRevocations(store, until)
    ensures SameRevocations(Write(store, BlacklistKey(jti), "1", ttlSeconds, now),
                            until[jti := now + ttlSeconds * 1000])
  {
    hide BlacklistKey;
    forall other ensures BlacklistKey(other) == BlacklistKey(jti) <==> other == jti { KeysAreSeparate(other, jti); }
  }

  lemma ActiveKeysRevokeNothing(store: Store, until: map<string, nat>, id: string, isActive: bool, now: nat)
    requires SameRevocations(store, until)
    ensures SameRevocations(CacheActive(store, id, isActive, now), until)
    ensures SameRevocations(store - {ActiveKey(id)}, until)
  {
    hide BlacklistKey, ActiveKey;
    forall jti ensures BlacklistKey(jti) != ActiveKey(id) { KeysAreSeparate(jti, id); }
  }

  /** A time to live in whole seconds is written as it is. */
  lemma CeilOfSeconds(s: int)
    ensures CeilSeconds(s * 1000) == s
  {
  }

  lemma BlacklistRevokes(store: Store, until: map<string, nat>, token: Token, now: nat)
    requires SameRevocations(store, until)
    ensures SameRevocations(BlacklistToken(store, token, now), Revoking(until, Some(token), now))
    ensures token.exp.Some? && token.exp.value != 0 ==>
      SameRevocations(Blacklisted(store, token.jti, (token.exp.value - now / 1000) * 1000, now),
                      Revoking(until, Some(token), now))
  {
    hide SameRevocations;
    if token.exp.Some? && now < token.exp.value * 1000 {
      var s := token.exp.value - now / 1000;
      CeilOfSeconds(s);
      WriteRevokes(store, until, token.jti, s, now);
    }
  }

  lemma RevokedIffBlacklisted(w: World, b: Book, jti: string)
    requires Agrees(w, b)
    ensures IsBlacklisted(w.state.store, jti, w.now) <==> Revoked(b, jti)
  {
  }

  lemma RefreshAgrees(w: World, b: Book, token: Option<Token>)
    requires Agrees(w, b)
    ensures RefreshOutcome(w.state, token, w.now).Granted? <==> token.Some? && Renews(b, token.value)
  {
    hide CacheHonest, SameRevocations;
    if token.Some? {
      RevokedIffBlacklisted(w, b, token.value.jti);
      if token.value.sub in b.profiles {
        StoredAccount(w.state.accounts, b.profiles, token.value.sub, b.profiles[token.value.sub]);
      }
    }
  }

  lemma ActiveAgrees(w: World, b: Book, userId: string)
    requires Agrees(w, b)
    ensures ActiveOutcome(w.state, userId, w.now).Granted? <==> (userId in b.profiles ==> IsActive(b, userId))
  {
    GuardFollowsFlag(w, [], userId);
    if userId in b.profiles { StoredAccount(w.state.accounts, b.profiles, userId, b.profiles[userId]); }
  }

  /** The guard grants a request exactly when the rules admit it. */
  lemma GuardAgrees(w: World, b: Book, access: Option<Token>, refresh: Option<Token>)
    requires Agrees(w, b)
    ensures AccessOutcome(w.state, access, refresh, w.now).Granted? <==> Admits(b, access, refresh)
  {
    hide Agrees, ActiveOutcome, RefreshOutcome, Renews, IsActive, Revoked;
    if access.Some? {
      SameClock(w, b);
      RevokedIffBlacklisted(w, b, access.value.jti);
      ActiveAgrees(w, b, access.value.sub);
      RefreshAgrees(w, b, refresh);
    }
  }

  /** What it refuses, it refuses for the first of these reasons; a deactivated account gets 403, and all else 401. */
  lemma RefusalsAre(w: World, b: Book, access: Option<Token>, refresh: Option<Token>)
    requires Agrees(w, b)
    ensures
      var answer := AccessOutcome(w.state, access, refresh, w.now);
      if access.None? then answer == Unauthorized(NoToken)
      else if Revoked(b, access.value.jti) then answer == Unauthorized(Sessions.Revoked)
      else if !IsPast(access.value, b.now) then
        answer == if access.value.sub in b.profiles && !IsActive(b, access.value.sub) then Forbidden else Granted
      else if refresh.None? then answer == Unauthorized(NoToken)
      else
        var token := refresh.value;
        var live := Unexpired(token, b.now) && !Revoked(b, token.jti);
        var session := token.sub in b.profiles && b.profiles[token.sub].current.Some?;
        && (answer == Unauthorized(Expired) <==> !Unexpired(token, b.now))
        && (answer == Unauthorized(Sessions.Revoked) <==> Unexpired(token, b.now) && Revoked(b, token.jti))
        && (answer == Unauthorized(NoSession) <==> live && !session)
        && (answer == Forbidden <==> live && session && !IsActive(b, token.sub))
        && (answer == Unauthorized(Mismatch) <==> live && session && IsActive(b, token.sub) && !IsCurrent(b, token))
  {
    hide CacheHonest, SameRevocations, SameAccounts, Revoked, IsBlacklisted, ActiveOutcome;
    if access.Some? {
      RevokedIffBlacklisted(w, b, access.value.jti);
      ActiveAgrees(w, b, access.value.sub);
      ActiveRefusal(w.state, access.value.sub, w.now);
      if refresh.Some? {
        RevokedIffBlacklisted(w, b, refresh.value.jti);
        StoredAccount(w.state.accounts, b.profiles, refresh.value.sub,
                      if refresh.value.sub in b.profiles then b.profiles[refresh.value.sub]
                      else Profile(true, false, None));
      }
    }
  }

  lemma ActiveRefusal(st: State, userId: string, now: nat)
    ensures ActiveOutcome(st, userId, now) in {Granted, Forbidden}
  {
  }

  lemma SameClock(w: World, b: Book)
    requires Agrees(w, b)
    ensures w.now == b.now
  {
  }

  lemma RenewalAgrees(w: World, b: Book, token: Token, env: Refreshing)
    requires Agrees(w, b) && Renews(b, token)
    ensures token.sub in w.state.accounts
    ensures Agrees(World(Rotated(w.state, token, env, w.now), w.now + env.delay), Renewed(b, token, env))
  {
    hide CacheHonest, SameRevocations, SameAccounts;
    var later, profile := w.now + env.delay, b.profiles[token.sub].(current := Some(env.newToken));
    StoredAccount(w.state.accounts, b.profiles, token.sub, profile);
    RotationKeepsHonest(w, token, env);
    if token.exp.Some? {
      BlacklistRevokes(w.state.store, b.revokedUntil, token, later);
    } else {
      CeilOfSeconds(7 * 24 * 3_600);
      WriteRevokes(w.state.store, b.revokedUntil, token.jti, 7 * 24 * 3_600, later);
    }
    ActiveKeysRevokeNothing(Blacklisted(w.state.store, token.jti, RotationTtl(token, later), later),
                            Renewed(b, token, env).revokedUntil, token.sub, profile.isActive, later);
  }

  lemma UseAgrees(w: World, b: Book, request: Request)
    requires Agrees(w, b) && request.UseToken?
    ensures Agrees(Sessions.Step(w, request), Noted(b, request))
  {
    hide CacheHonest, SameRevocations, SameAccounts, Renews, RefreshOutcome, Rotated, Renewed;
    var access, refresh, env := request.access, request.refresh, request.env;
    StepKeepsHonest(w, request);
    if access.Some? {
      RevokedIffBlacklisted(w, b, access.value.jti);
      RefreshAgrees(w, b, refresh);
      if !Revoked(b, access.value.jti) && IsPast(access.value, b.now) && refresh.Some? && Renews(b, refresh.value) {
        RenewalAgrees(w, b, refresh.value, env);
      } else if CachedActive(w.state.store, access.value.sub, w.now).None? && access.value.sub in w.state.accounts {
        ActiveKeysRevokeNothing(w.state.store, b.revokedUntil, access.value.sub,
                                w.state.accounts[access.value.sub].isActive, w.now);
      }
    }
  }

  lemma SignOutAgrees(w: World, b: Book, request: Request)
    requires Agrees(w, b) && request.SignOut?
    ensures Agrees(Sessions.Step(w, request), Noted(b, request))
  {
    hide CacheHonest, SameRevocations, SameAccounts;
    StepKeepsHonest(w, request);
    var userId, access, refresh := request.userId, request.access, request.refresh;
    if userId in b.profiles {
      StoredAccount(w.state.accounts, b.profiles, userId, b.profiles[userId].(current := None));
      var store := if access.Some? then BlacklistToken(w.state.store, access.value, w.now) else w.state.store;
      if access.Some? { BlacklistRevokes(w.state.store, b.revokedUntil, access.value, w.now); }
      if refresh.Some? { BlacklistRevokes(store, Revoking(b.revokedUntil, access, w.now), refresh.value, w.now); }
    } else {
      StoredAccount(w.state.accounts, b.profiles, userId, Profile(true, false, None));
    }
  }

  lemma AccountStepAgrees(w: World, b: Book, request: Request)
    requires Agrees(w, b) && (request.SignUp? || request.SignIn? || request.Tick?)
    ensures Agrees(Sessions.Step(w, request), Noted(b, request))
  {
    hide CacheHonest, SameRevocations, SameAccounts;
    StepKeepsHonest(w, request);
    if !request.Tick? {
      var id, current := request.userId, Some(request.newToken);
      if id in b.profiles {
        StoredAccount(w.state.accounts, b.profiles, id, b.profiles[id].(current := current));
      } else {
        StoredAccount(w.state.accounts, b.profiles, id, Profile(true, false, current));
      }
    }
  }

  lemma AdminStepAgrees(w: World, b: Book, request: Request)
    requires Agrees(w, b) && (request.Switch? || request.Delete? || request.Undelete?)
    ensures Agrees(Sessions.Step(w, request), Noted(b, request))
  {
    hide CacheHonest, SameRevocations, SameAccounts;
    StepKeepsHonest(w, request);
    var id := request.id;
    if id in b.profiles {
      var p := b.profiles[id];
      var p' := match request
        case Switch(_, _, isActive) => p.(isActive := isActive)
        case Delete(_, _) => p.(deleted := true)
        case _ => p.(deleted := false);
      StoredAccount(w.state.accounts, b.profiles, id, p');
      ActiveKeysRevokeNothing(w.state.store, b.revokedUntil, id, p.isActive, w.now);
      assert b.profiles[id := p] == b.profiles;
    } else {
      StoredAccount(w.state.accounts, b.profiles, id, Profile(true, false, None));
    }
  }

  lemma StepAgrees(w: World, b: Book, request: Request)
    requires Agrees(w, b)
    ensures Agrees(Sessions.Step(w, request), Noted(b, request))
  {
    hide Agrees, Noted, Sessions.Step;
    match request
    case UseToken(_, _, _) => UseAgrees(w, b, request);
    case SignOut(_, _, _) => SignOutAgrees(w, b, request);
    case Switch(_, _, _) => AdminStepAgrees(w, b, request);
    case Delete(_, _) => AdminStepAgrees(w, b, request);
    case Undelete(_) => AdminStepAgrees(w, b, request);
    case _ => AccountStepAgrees(w, b, request);
  }

  lemma {:induction false} RunAgrees(w: World, b: Book, requests: seq<Request>)
    requires Agrees(w, b)
    ensures Agrees(Sessions.Run(w, requests), AllNoted(b, requests))
    decreases |requests|
  {
    hide Agrees, Noted, Sessions.Step;
    if requests != [] {
      StepAgrees(w, b, requests[0]);
      RunAgrees(Sessions.Step(w, requests[0]), Noted(b, requests[0]), requests[1..]);
    }
  }
}
