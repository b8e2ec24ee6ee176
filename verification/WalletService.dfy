/** Linking a wallet: a challenge is stored for five minutes, and answered at most once. */
module WalletService {
  import opened Wrappers
  import opened RedisService
  import opened Challenge

  const CHALLENGE_TTL_MS := 5 * 60 * 1000

  /** `Proven` carries the message whose signature was checked. */
  datatype ConnectResult = NoChallenge | WrongAddress | BadSignature | Proven(message: string)

  function ChallengeKey(userId: string): string {
    "wallet-challenge:" + userId
  }

  function Issue(store: Store, userId: string, address: string, nonce: string, message: string, now: nat): Store {
    Write(store, ChallengeKey(userId), WalletRecord(address, nonce, message), CHALLENGE_TTL_MS / 1000, now)
  }

  /** The proof part of `connect`; `signed` says which messages the presented signature is valid for. */
  function Connect(store: Store, userId: string, address: string, signed: string -> bool, now: nat)
    : (ConnectResult, Store)
  {
    match Read(store, ChallengeKey(userId), now)
    case None => (NoChallenge, store)
    case Some(stored) =>
      var challenge := ParseWalletRecord(stored);
      if challenge.address != ToLowerCase(address) then (WrongAddress, store)
      else if !signed(challenge.message) then (BadSignature, store)
      else (Proven(challenge.message), store - {ChallengeKey(userId)})
  }

  /** Until it expires, a challenge is answered exactly by a signature of the issued message under the issued address
      (up to case), and a proof cannot be repeated. */
  lemma ConnectAnswersChallenge(store: Store, userId: string, issued: string, nonce: string, message: string,
                                issuedAt: nat, address: string, signed: string -> bool, now: nat,
                                again: string -> bool, later: nat)
    requires ':' !in issued && ':' !in nonce && issuedAt <= now <= later
    ensures
      var (result, after) := Connect(Issue(store, userId, issued, nonce, message, issuedAt), userId, address, signed,
        now);
      && (result.NoChallenge? <==> now >= issuedAt + 300_000)
      && (result.Proven? <==>
            now < issuedAt + 300_000 && ToLowerCase(issued) == ToLowerCase(address) && signed(message))
      && (result.WrongAddress? <==> now < issuedAt + 300_000 && ToLowerCase(issued) != ToLowerCase(address))
      && (result.Proven? ==> result.message == message)
      && (result.Proven? ==> Connect(after, userId, address, again, later) == (NoChallenge, after))
  {
    WalletRoundTrip(issued, nonce, message);
  }

  /** Neither the challenge of a user nor its proof touches what is stored for another user, or for the guard. */
  lemma ChallengesAreSeparate(store: Store, userId: string, address: string, nonce: string, message: string,
                              signed: string -> bool, now: nat, other: string, jti: string, later: nat)
    ensures
      var issued := Issue(store, userId, address, nonce, message, now);
      var after := Connect(store, userId, address, signed, now).1;
      forall key :: key in {BlacklistKey(jti), ActiveKey(other)} || (other != userId && key == ChallengeKey(other)) ==>
        Read(issued, key, later) == Read(store, key, later) && Read(after, key, later) == Read(store, key, later)
  {
    assert ChallengeKey(userId)[0] == 'w' && BlacklistKey(jti)[0] == 'b' && ActiveKey(other)[0] == 'a';
    assert ChallengeKey(userId)[17..] == userId && ChallengeKey(other)[17..] == other;
  }

  class WalletService {
    const redis: RedisService

    constructor (redis: RedisService)
      ensures this.redis == redis
    {
      this.redis := redis;
    }

    method GenerateChallenge(userId: string, address: string, nonce: string, message: string, now: nat)
      modifies redis
      ensures redis.store == Issue(old(redis.store), userId, address, nonce, message, now)
    {
      var ok := redis.Set(ChallengeKey(userId), WalletRecord(address, nonce, message), CHALLENGE_TTL_MS, now);
    }

    method ConnectWallet(userId: string, address: string, signed: string -> bool, now: nat)
      returns (result: ConnectResult)
      modifies redis
      ensures (result, redis.store) == Connect(old(redis.store), userId, address, signed, now)
    {
      var stored := redis.Get(ChallengeKey(userId), now);
      if stored.None? { return NoChallenge; }
      var challenge := ParseWalletRecord(stored.value);
      if challenge.address != ToLowerCase(address) { return WrongAddress; }
      if !signed(challenge.message) { return BadSignature; }
      redis.Del(ChallengeKey(userId));
      result := Proven(challenge.message);
    }
  }
}
