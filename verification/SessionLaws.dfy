/** Over every run: which requests the guard grants, and which tokens it refuses from when on. */
module SessionLaws {
  import opened Wrappers
  import opened Sessions
  import opened SessionRules

  function NothingAt(now: nat): World {
    World(State(map[], map[]), now)
  }

  function EmptyBook(now: nat): Book {
    Book(map[], map[], now)
  }

  lemma NothingAgrees(now: nat)
    ensures Agrees(NothingAt(now), EmptyBook(now))
  {
  }

  /** In every reachable world the guard, with its cache and blacklist, grants exactly what the rules admit, and renews
      exactly the sessions that they renew. */
  lemma GuardAdmitsIff(start: nat, requests: seq<Request>, access: Option<Token>, refresh: Option<Token>)
    ensures
      var w, b := Sessions.Run(NothingAt(start), requests), AllNoted(EmptyBook(start), requests);
      && (AccessOutcome(w.state, access, refresh, w.now).Granted? <==> Admits(b, access, refresh))
      && (RefreshOutcome(w.state, refresh, w.now).Granted? <==> refresh.Some? && Renews(b, refresh.value))
      && Agrees(w, b)
  {
    hide Agrees, Admits, Renews;
    NothingAgrees(start);
    RunAgrees(NothingAt(start), EmptyBook(start), requests);
    var w, b := Sessions.Run(NothingAt(start), requests), AllNoted(EmptyBook(start), requests);
    GuardAgrees(w, b, access, refresh);
    RefreshAgrees(w, b, refresh);
  }

  // ---------------------------------------------------------------------------------------------
  // Access tokens: the flag, past logouts and the clock
  // ---------------------------------------------------------------------------------------------

  /** A known user logs out with the token, or it renews a session. */
  predicate Revokes(b: Book, request: Request, token: Token) {
    match request
    case SignOut(userId, access, refresh) => userId in b.profiles && Some(token) in {access, refresh}
    case UseToken(access, refresh, env) =>
      Admits(b, access, refresh) && IsPast(access.value, b.now) && refresh == Some(token)
    case _ => false
  }

  predicate EverRevoked(b: Book, requests: seq<Request>, token: Token)
    decreases |requests|
  {
    requests != [] && (Revokes(b, requests[0], token) || EverRevoked(Noted(b, requests[0]), requests[1..], token))
  }

  ghost predicate AllUnmistaken(requests: seq<Request>, token: Token) {
    forall i :: 0 <= i < |requests| ==> Unmistaken(requests[i], token)
  }

  /** If the token is revoked at all, then for the rest of its life. */
  predicate ForLife(b: Book, token: Token)
    requires token.exp.Some?
  {
    token.jti in b.revokedUntil ==> b.revokedUntil[token.jti] >= token.exp.value * 1000
  }

  lemma NotedRevokes(b: Book, request: Request, token: Token)
    requires token.exp.Some? && Unmistaken(request, token) && ForLife(b, token)
    ensures ForLife(Noted(b, request), token) && b.now <= Noted(b, request).now
    ensures Noted(b, request).now < token.exp.value * 1000 ==>
      (token.jti in Noted(b, request).revokedUntil <==> token.jti in b.revokedUntil || Revokes(b, request, token))
  {
    hide Renews;
  }

  lemma {:induction false} RevokedIffEver(b: Book, requests: seq<Request>, token: Token)
    requires token.exp.Some? && AllUnmistaken(requests, token) && ForLife(b, token)
    ensures ForLife(AllNoted(b, requests), token) && b.now <= AllNoted(b, requests).now
    ensures AllNoted(b, requests).now < token.exp.value * 1000 ==>
      (token.jti in AllNoted(b, requests).revokedUntil <==>
        token.jti in b.revokedUntil || EverRevoked(b, requests, token))
    decreases |requests|
  {
    hide Noted, Revokes, ForLife;
    if requests != [] {
      NotedRevokes(b, requests[0], token);
      assert forall i :: 0 <= i < |requests[1..]| ==> requests[1..][i] == requests[i + 1];
      RevokedIffEver(Noted(b, requests[0]), requests[1..], token);
    }
  }

  /** Over every run, an access token in its life is granted if and only if nobody has logged out with it, or spent it
      as a refresh token, and its owner's account is active (or unknown), whatever refresh token comes with it. */
  lemma AccessGrantedIff(start: nat, requests: seq<Request>, token: Token, refresh: Option<Token>)
    requires token.exp.Some? && AllUnmistaken(requests, token)
    requires Sessions.Run(NothingAt(start), requests).now < token.exp.value * 1000
    ensures
      var w := Sessions.Run(NothingAt(start), requests);
      AccessOutcome(w.state, Some(token), refresh, w.now).Granted? <==>
        && !EverRevoked(EmptyBook(start), requests, token)
        && (token.sub in w.state.accounts ==> w.state.accounts[token.sub].isActive)
  {
    hide EverRevoked, Renews;
    var w, b := Sessions.Run(NothingAt(start), requests), AllNoted(EmptyBook(start), requests);
    GuardAdmitsIff(start, requests, Some(token), refresh);
    RevokedIffEver(EmptyBook(start), requests, token);
    if token.sub in b.profiles {
      StoredAccount(w.state.accounts, b.profiles, token.sub, b.profiles[token.sub]);
    }
  }

  /** After a logout with an access token, every later request with it is refused as revoked up to its expiry, whatever
      happened since and whatever refresh token comes with it; and it changes nothing. */
  lemma LoggedOutIsRefused(w: World, userId: string, token: Token, other: Option<Token>, requests: seq<Request>,
                           refresh: Option<Token>, env: Refreshing)
    requires userId in w.state.accounts && token.exp.Some? && AllUnmistaken(requests, token) && Only(other, token)
    requires Sessions.Run(Sessions.Step(w, SignOut(userId, Some(token), other)), requests).now < token.exp.value * 1000
    ensures
      var w' := Sessions.Run(Sessions.Step(w, SignOut(userId, Some(token), other)), requests);
      && AccessOutcome(w'.state, Some(token), refresh, w'.now) == Unauthorized(Sessions.Revoked)
      && Access(w'.state, Some(token), refresh, env, w'.now) == w'.state
  {
    hide Sessions.Run;
    var w1 := Sessions.Step(w, SignOut(userId, Some(token), other));
    EntryOutlivesToken(w.state.store, token, w.now);
    var store := BlacklistToken(w.state.store, token, w.now);
    if other.Some? { BlacklistKeepsCovered(store, other.value, token, w.now); }
    assert Covered(w1.state.store, token, w1.now);
    CoveredForever(w1, requests, token);
  }

  // ---------------------------------------------------------------------------------------------
  // Refresh tokens: the one stored last, while the account is active
  // ---------------------------------------------------------------------------------------------

  /** No later request stores a token that the comparison cannot tell from this one. */
  ghost predicate NeverStored(requests: seq<Request>, token: Token) {
    forall i :: 0 <= i < |requests| ==>
      match requests[i]
      case SignUp(_, newToken) => Digest(newToken) != Digest(token.text)
      case SignIn(_, newToken, _) => Digest(newToken) != Digest(token.text)
      case UseToken(_, _, env) => Digest(env.newToken) != Digest(token.text)
      case _ => true
  }

  lemma {:induction false} NeverCurrent(b: Book, requests: seq<Request>, token: Token)
    requires !IsCurrent(b, token) && NeverStored(requests, token)
    ensures !IsCurrent(AllNoted(b, requests), token)
    decreases |requests|
  {
    hide Digest, Admits;
    if requests != [] {
      assert forall i :: 0 <= i < |requests[1..]| ==> requests[1..][i] == requests[i + 1];
      NeverCurrent(Noted(b, requests[0]), requests[1..], token);
    }
  }

  lemma RefusedIfNotCurrent(w: World, b: Book, token: Token, env: Refreshing)
    requires Agrees(w, b) && !IsCurrent(b, token)
    ensures !RefreshOutcome(w.state, Some(token), w.now).Granted?
    ensures Refresh(w.state, Some(token), env, w.now) == w.state
  {
    hide Agrees;
    RefreshAgrees(w, b, Some(token));
  }

  /** A sign-in supersedes every refresh token of the user that the comparison tells from the new one: it is refused,
      and nothing changes, until one like it is stored again. */
  lemma SupersededIsRefused(w: World, b: Book, userId: string, newToken: string, byWallet: bool, requests: seq<Request>,
                            token: Token, env: Refreshing)
    requires Agrees(w, b) && SignsIn(b, userId, byWallet) && token.sub == userId
    requires Digest(newToken) != Digest(token.text) && NeverStored(requests, token)
    ensures
      var w' := Sessions.Run(Sessions.Step(w, SignIn(userId, newToken, byWallet)), requests);
      !RefreshOutcome(w'.state, Some(token), w'.now).Granted? && Refresh(w'.state, Some(token), env, w'.now) == w'.state
  {
    hide Agrees, Digest;
    var request := SignIn(userId, newToken, byWallet);
    StepAgrees(w, b, request);
    NeverCurrent(Noted(b, request), requests, token);
    RunAgrees(Sessions.Step(w, request), Noted(b, request), requests);
    RefusedIfNotCurrent(Sessions.Run(Sessions.Step(w, request), requests), AllNoted(Noted(b, request), requests), token,
                        env);
  }

  /** At once, exactly those that the comparison tells from the new one are refused. */
  lemma SupersededIsRefusedIff(w: World, b: Book, userId: string, newToken: string, byWallet: bool, token: Token)
    requires Agrees(w, b) && SignsIn(b, userId, byWallet) && token.sub == userId
    requires Unexpired(token, w.now) && !SessionRules.Revoked(b, token.jti) && IsActive(b, userId)
    ensures
      var w' := Sessions.Step(w, SignIn(userId, newToken, byWallet));
      RefreshOutcome(w'.state, Some(token), w'.now).Granted? <==> Digest(newToken) == Digest(token.text)
  {
    hide Agrees, Digest, RefreshOutcome;
    var request := SignIn(userId, newToken, byWallet);
    SameClock(w, b);
    StepAgrees(w, b, request);
    RefreshAgrees(Sessions.Step(w, request), Noted(b, request), Some(token));
  }

  ghost predicate NoSignInOf(requests: seq<Request>, userId: string) {
    forall i :: 0 <= i < |requests| && requests[i].SignIn? ==> requests[i].userId != userId
  }

  lemma {:induction false} StaysSignedOut(b: Book, requests: seq<Request>, userId: string)
    requires userId in b.profiles && b.profiles[userId].current.None? && NoSignInOf(requests, userId)
    ensures
      var b' := AllNoted(b, requests);
      userId in b'.profiles && b'.profiles[userId].current.None?
    decreases |requests|
  {
    hide SessionRules.Revoked, Unexpired;
    if requests != [] {
      assert forall i :: 0 <= i < |requests[1..]| ==> requests[1..][i] == requests[i + 1];
      StaysSignedOut(Noted(b, requests[0]), requests[1..], userId);
    }
  }

  /** After a logout no refresh token of the user is granted until he signs in again, and nothing changes. */
  lemma SignedOutIsRefused(w: World, b: Book, userId: string, access: Option<Token>, refresh: Option<Token>,
                           requests: seq<Request>, token: Token, env: Refreshing)
    requires Agrees(w, b) && userId in b.profiles && token.sub == userId && NoSignInOf(requests, userId)
    ensures
      var w' := Sessions.Run(Sessions.Step(w, SignOut(userId, access, refresh)), requests);
      !RefreshOutcome(w'.state, Some(token), w'.now).Granted? && Refresh(w'.state, Some(token), env, w'.now) == w'.state
  {
    hide Agrees;
    var request := SignOut(userId, access, refresh);
    StepAgrees(w, b, request);
    StaysSignedOut(Noted(b, request), requests, userId);
    RunAgrees(Sessions.Step(w, request), Noted(b, request), requests);
    RefusedIfNotCurrent(Sessions.Run(Sessions.Step(w, request), requests), AllNoted(Noted(b, request), requests), token,
                        env);
  }

  ghost predicate NoActivationOf(requests: seq<Request>, id: string) {
    forall i :: 0 <= i < |requests| && requests[i].Switch? && requests[i].isActive ==> requests[i].id != id
  }

  lemma {:induction false} StaysInactive(b: Book, requests: seq<Request>, id: string)
    requires id in b.profiles && !IsActive(b, id) && NoActivationOf(requests, id)
    ensures id in AllNoted(b, requests).profiles && !IsActive(AllNoted(b, requests), id)
    decreases |requests|
  {
    hide Admits;
    if requests != [] {
      assert forall i :: 0 <= i < |requests[1..]| ==> requests[1..][i] == requests[i + 1];
      StaysInactive(Noted(b, requests[0]), requests[1..], id);
    }
  }

  /** For whom the guard would act. */
  function Principal(access: Token, refresh: Option<Token>, now: nat): Option<string> {
    if !IsPast(access, now) then Some(access.sub) else if refresh.Some? then Some(refresh.value.sub) else None
  }

  /** From its deactivation on no token of an account is granted, neither an access nor a refresh token, until it is
      activated again; accounts stay as they are, and so does everything else when a refresh is refused. */
  lemma DeactivatedIsRefused(w: World, b: Book, id: string, requester: string, requests: seq<Request>, access: Token,
                             refresh: Option<Token>, env: Refreshing)
    requires Agrees(w, b) && id in b.profiles && id != requester && NoActivationOf(requests, id)
    ensures
      var w' := Sessions.Run(Sessions.Step(w, Switch(id, requester, false)), requests);
      Principal(access, refresh, w'.now) == Some(id) ==>
        && !AccessOutcome(w'.state, Some(access), refresh, w'.now).Granted?
        && Access(w'.state, Some(access), refresh, env, w'.now).accounts == w'.state.accounts
        && (IsPast(access, w'.now) ==> Access(w'.state, Some(access), refresh, env, w'.now) == w'.state)
  {
    hide Agrees, Unexpired, SessionRules.Revoked, ActiveOutcome, RefreshOutcome;
    var request := Switch(id, requester, false);
    StepAgrees(w, b, request);
    StaysInactive(Noted(b, request), requests, id);
    RunAgrees(Sessions.Step(w, request), Noted(b, request), requests);
    var w', b' := Sessions.Run(Sessions.Step(w, request), requests), AllNoted(Noted(b, request), requests);
    SameClock(w', b');
    GuardAgrees(w', b', Some(access), refresh);
    RefreshAgrees(w', b', refresh);
  }
}
