/** The guard, logout and the admin operations as they run: statements on the account table and the shared store,
    proved to take the steps of `Sessions`. */
module AuthGuard {
  import opened Wrappers
  import opened RedisService
  import opened Sessions

  class AccountTable {
    var rows: map<string, Account>

    constructor (rows: map<string, Account>)
      ensures this.rows == rows
    {
      this.rows := rows;
    }
  }

  class JwtAuthGuard {
    const accounts: AccountTable
    const redis: RedisService

    constructor (accounts: AccountTable, redis: RedisService)
      ensures this.accounts == accounts && this.redis == redis
    {
      this.accounts, this.redis := accounts, redis;
    }

    function View(): State
      reads accounts, redis
    {
      State(accounts.rows, redis.store)
    }

    method CanActivate(access: Option<Token>, refresh: Option<Token>, env: Refreshing, now: nat)
      returns (outcome: Outcome)
      modifies accounts, redis
      ensures outcome == AccessOutcome(old(View()), access, refresh, now)
      ensures View() == Access(old(View()), access, refresh, env, now)
    {
      if access.None? { return Unauthorized(NoToken); }
      var revoked := redis.Get(BlacklistKey(access.value.jti), now);
      if revoked.Some? { return Unauthorized(Revoked); }
      if !IsExpired(access.value, now) {
        outcome := AssertActive(access.value.sub, now);
      } else {
        outcome := HandleSilentRefresh(refresh, env, now);
      }
    }

    method AssertActive(userId: string, now: nat) returns (outcome: Outcome)
      modifies redis
      ensures outcome == ActiveOutcome(old(View()), userId, now)
      ensures View() == Sessions.AssertActive(old(View()), userId, now)
    {
      var cached := redis.GetCachedActiveStatus(userId, now);
      if cached.Some? {
        return if cached.value then Granted else Forbidden;
      }
      outcome := Granted;
      if userId in accounts.rows {
        var user := accounts.rows[userId];
        redis.CacheActiveStatus(userId, user.isActive, now);
        if !user.isActive { outcome := Forbidden; }
      }
    }

    method HandleSilentRefresh(refresh: Option<Token>, env: Refreshing, now: nat) returns (outcome: Outcome)
      modifies accounts, redis
      ensures outcome == RefreshOutcome(old(View()), refresh, now)
      ensures View() == Refresh(old(View()), refresh, env, now)
    {
      if refresh.None? { return Unauthorized(NoToken); }
      var token := refresh.value;
      if !Verifies(token, now) { return Unauthorized(Expired); }
      var revoked := redis.Get(BlacklistKey(token.jti), now);
      if revoked.Some? { return Unauthorized(Revoked); }
      if token.sub !in accounts.rows || accounts.rows[token.sub].refreshHash.None? { return Unauthorized(NoSession); }
      var user := accounts.rows[token.sub];
      if !user.isActive { return Forbidden; }
      if Digest(token.text) != user.refreshHash.value { return Unauthorized(Mismatch); }
      var later := now + env.delay;
      redis.Blacklist(token.jti, RotationTtl(token, later), later);
      accounts.rows := accounts.rows[token.sub := user.(refreshHash := Some(Digest(env.newToken)))];
      redis.CacheActiveStatus(token.sub, user.isActive, later);
      outcome := Granted;
    }

    /** `AuthService.logout`; for an unknown user the update of his row throws. */
    method Logout(userId: string, access: Option<Token>, refresh: Option<Token>, now: nat) returns (ok: bool)
      modifies accounts, redis
      ensures ok <==> userId in old(accounts.rows)
      ensures View() == Sessions.Logout(old(View()), userId, access, refresh, now)
    {
      if userId !in accounts.rows { return false; }
      accounts.rows := accounts.rows[userId := accounts.rows[userId].(refreshHash := None)];
      if access.Some? && access.value.exp.Some? && access.value.exp.value != 0 {
        redis.Blacklist(access.value.jti, (access.value.exp.value - now / 1000) * 1000, now);
      }
      if refresh.Some? && Verifies(refresh.value, now) && refresh.value.exp.Some? && refresh.value.exp.value != 0 {
        redis.Blacklist(refresh.value.jti, (refresh.value.exp.value - now / 1000) * 1000, now);
      }
      ok := true;
    }

    /** `UserService.activate` and `UserService.deactivate`. */
    method SetActive(id: string, requester: string, isActive: bool) returns (error: Option<AdminError>)
      modifies accounts, redis
      ensures View() == Sessions.SetActive(old(View()), id, requester, isActive)
      ensures error == if id == requester then Some(OwnAccount)
                       else if id !in old(accounts.rows) then Some(NotFound)
                       else if old(accounts.rows)[id].isActive == isActive then Some(AlreadyDone) else None
    {
      if id == requester { return Some(OwnAccount); }
      if id !in accounts.rows { return Some(NotFound); }
      if accounts.rows[id].isActive == isActive { return Some(AlreadyDone); }
      accounts.rows := accounts.rows[id := accounts.rows[id].(isActive := isActive)];
      redis.InvalidateActiveStatus(id);
      error := None;
    }

    method SoftDelete(id: string, requester: string) returns (error: Option<AdminError>)
      modifies accounts, redis
      ensures View() == Sessions.SoftDelete(old(View()), id, requester)
      ensures error.None? <==> id != requester && id in old(accounts.rows) && !old(accounts.rows)[id].deleted
    {
      if id == requester { return Some(OwnAccount); }
      if id !in accounts.rows { return Some(NotFound); }
      if accounts.rows[id].deleted { return Some(AlreadyDone); }
      accounts.rows := accounts.rows[id := accounts.rows[id].(deleted := true)];
      redis.InvalidateActiveStatus(id);
      error := None;
    }

    method Restore(id: string, now: nat) returns (error: Option<AdminError>)
      modifies accounts, redis
      ensures View() == Sessions.Restore(old(View()), id, now)
      ensures error.None? <==> id in old(accounts.rows) && old(accounts.rows)[id].deleted
    {
      if id !in accounts.rows { return Some(NotFound); }
      if !accounts.rows[id].deleted { return Some(AlreadyDone); }
      accounts.rows := accounts.rows[id := accounts.rows[id].(deleted := false)];
      redis.CacheActiveStatus(id, accounts.rows[id].isActive, now);
      error := None;
    }
  }
}
