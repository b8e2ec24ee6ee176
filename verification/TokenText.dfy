/** The text of a signed token, as far as bcrypt reads it.  Refresh tokens are longer than what is read, and those of
    one user agree on all of it. */
module TokenText {
  import opened Wrappers
  import opened Sessions
  import opened SessionRules
  import opened SessionLaws

  type Byte = b: int | 0 <= b < 256

  const ALPHABET := "ABCDEFGHIJKLMNOPQRSTUVWXYZabcdefghijklmnopqrstuvwxyz0123456789-_"

  function Symbol(value: int): char
    requires 0 <= value < 64
  {
    ALPHABET[value]
  }

  /** The URL-safe encoding without padding (section 5 of RFC 4648). */
  function Base64(bytes: seq<Byte>): string {
    if |bytes| == 0 then ""
    else if |bytes| == 1 then [Symbol(bytes[0] / 4), Symbol(bytes[0] % 4 * 16)]
    else if |bytes| == 2 then
      [Symbol(bytes[0] / 4), Symbol(bytes[0] % 4 * 16 + bytes[1] / 16), Symbol(bytes[1] % 16 * 4)]
    else
      [Symbol(bytes[0] / 4), Symbol(bytes[0] % 4 * 16 + bytes[1] / 16), Symbol(bytes[1] % 16 * 4 + bytes[2] / 64),
       Symbol(bytes[2] % 64)] + Base64(bytes[3..])
  }

  predicate IsAscii(s: string) {
    forall i :: 0 <= i < |s| ==> s[i] < 128 as char
  }

  function Ascii(s: string): (bytes: seq<Byte>)
    requires IsAscii(s)
    ensures |bytes| == |s|
  {
    seq(|s|, i requires 0 <= i < |s| => s[i] as int)
  }

  /** `{"alg":"HS256","typ":"JWT"}`, encoded. */
  const HEADER := "eyJhbGciOiJIUzI1NiIsInR5cCI6IkpXVCJ9"

  const OPENING := "{\"sub\":\""

  /** The compact form (section 3.1 of RFC 7519) of a payload that names its subject first. */
  function Signed(sub: string, rest: seq<Byte>, signature: string): string
    requires IsAscii(OPENING + sub)
  {
    HEADER + "." + (Base64(Ascii(OPENING + sub) + rest) + ("." + signature))
  }

  ghost predicate IssuedFor(text: string, sub: string) {
    IsAscii(OPENING + sub) && exists rest, signature :: text == Signed(sub, rest, signature)
  }

  lemma {:induction false} Base64OfConcat(a: seq<Byte>, b: seq<Byte>)
    requires |a| % 3 == 0
    ensures Base64(a + b) == Base64(a) + Base64(b) && |Base64(a)| == |a| / 3 * 4
  {
    hide Symbol;
    if a == [] {
      assert a + b == b;
    } else {
      assert (a + b)[3..] == a[3..] + b;
      Base64OfConcat(a[3..], b);
    }
  }

  /** The first 73 characters depend on the first 19 of the subject only. */
  lemma SignedStartsWith(sub: string, rest: seq<Byte>, signature: string)
    requires IsAscii(OPENING + sub) && |sub| >= 19
    ensures |HEADER + "." + Base64(Ascii(OPENING + sub)[..27])| == 73
    ensures HEADER + "." + Base64(Ascii(OPENING + sub)[..27]) <= Signed(sub, rest, signature)
  {
    hide Base64, Ascii;
    var opening := Ascii(OPENING + sub);
    EncodedStartsWith(opening, rest);
    assert |HEADER| == 36;
    StartsWith(HEADER + ".", Base64(opening[..27]), Base64(opening[27..] + rest), "." + signature);
  }

  lemma EncodedStartsWith(opening: seq<Byte>, rest: seq<Byte>)
    requires |opening| >= 27
    ensures Base64(opening + rest) == Base64(opening[..27]) + Base64(opening[27..] + rest)
    ensures |Base64(opening[..27])| == 36
  {
    hide Base64;
    assert opening + rest == opening[..27] + (opening[27..] + rest);
    Base64OfConcat(opening[..27], opening[27..] + rest);
  }

  lemma StartsWith(head: string, start: string, more: string, tail: string)
    ensures head + start <= head + ((start + more) + tail)
  {
    assert head + ((start + more) + tail) == (head + start) + (more + tail);
  }

  /** bcrypt cannot tell two refresh tokens of one user apart: it reads 72 bytes, and user ids are uuids of 36. */
  lemma OneUserOneDigest(s: string, t: string, sub: string)
    requires IssuedFor(s, sub) && IssuedFor(t, sub) && |sub| >= 19
    ensures Digest(s) == Digest(t)
  {
    var r, x :| s == Signed(sub, r, x);
    var r', x' :| t == Signed(sub, r', x');
    SignedStartsWith(sub, r, x);
    SignedStartsWith(sub, r', x');
    hide Signed, Base64, Ascii, Digest;
    SameStart(HEADER + "." + Base64(Ascii(OPENING + sub)[..27]), s, t);
  }

  lemma SameStart(start: string, s: string, t: string)
    requires start <= s && start <= t && |start| >= 73
    ensures Digest(s) == Digest(t)
  {
    assert s[..72] == start[..72] == t[..72];
  }

  // ---------------------------------------------------------------------------------------------
  // What the comparison with the stored hash decides
  // ---------------------------------------------------------------------------------------------

  /** The request stores a text for this user that was issued for him. */
  ghost predicate StoresIssued(request: Request) {
    match request
    case SignUp(userId, newToken) => IssuedFor(newToken, userId)
    case SignIn(userId, newToken, _) => IssuedFor(newToken, userId)
    case UseToken(_, refresh, env) => refresh.Some? ==> IssuedFor(env.newToken, refresh.value.sub)
    case _ => true
  }

  ghost predicate OnlyIssued(b: Book) {
    forall u :: u in b.profiles && b.profiles[u].current.Some? ==> IssuedFor(b.profiles[u].current.value, u)
  }

  lemma {:induction false} RunKeepsIssued(b: Book, requests: seq<Request>)
    requires OnlyIssued(b) && forall i :: 0 <= i < |requests| ==> StoresIssued(requests[i])
    ensures OnlyIssued(AllNoted(b, requests))
    decreases |requests|
  {
    hide IssuedFor, Renews, SessionRules.Revoked;
    if requests != [] {
      assert StoresIssued(requests[0]);
      RunKeepsIssued(Noted(b, requests[0]), requests[1..]);
    }
  }

  /** So over every run an issued refresh token is granted if and only if it is unexpired and unrevoked and its user is
      active and has signed in since he last signed out: whether it was stored last does not matter. */
  lemma IssuedIsRefreshedIff(start: nat, requests: seq<Request>, token: Token)
    requires forall i :: 0 <= i < |requests| ==> StoresIssued(requests[i])
    requires IssuedFor(token.text, token.sub) && |token.sub| >= 19
    ensures
      var w, b := Sessions.Run(NothingAt(start), requests), AllNoted(EmptyBook(start), requests);
      RefreshOutcome(w.state, Some(token), w.now).Granted? <==>
        && Unexpired(token, b.now) && !SessionRules.Revoked(b, token.jti) && IsActive(b, token.sub)
        && b.profiles[token.sub].current.Some?
  {
    hide IssuedFor, Digest, SessionRules.Revoked, Unexpired, OnlyIssued, RefreshOutcome;
    var b := AllNoted(EmptyBook(start), requests);
    GuardAdmitsIff(start, requests, None, Some(token));
    NothingIssued(start);
    RunKeepsIssued(EmptyBook(start), requests);
    if token.sub in b.profiles && b.profiles[token.sub].current.Some? {
      CurrentIsIssued(b, token.sub);
      OneUserOneDigest(b.profiles[token.sub].current.value, token.text, token.sub);
    }
  }

  lemma NothingIssued(start: nat)
    ensures OnlyIssued(EmptyBook(start))
  {
  }

  lemma CurrentIsIssued(b: Book, userId: string)
    requires OnlyIssued(b) && userId in b.profiles && b.profiles[userId].current.Some?
    ensures IssuedFor(b.profiles[userId].current.value, userId)
  {
  }

  /** For example, the token of a first sign-in is still granted after a second one has stored another. */
  lemma OlderTokenIsRefreshed(start: nat, token: Token, newer: string)
    requires IssuedFor(token.text, token.sub) && IssuedFor(newer, token.sub) && |token.sub| >= 19
    requires Unexpired(token, start) && newer != token.text
    ensures
      var w := Sessions.Run(NothingAt(start), [SignUp(token.sub, token.text), SignIn(token.sub, newer, false)]);
      && token.sub in w.state.accounts && w.state.accounts[token.sub].refreshHash == Some(Digest(newer))
      && RefreshOutcome(w.state, Some(token), w.now).Granted?
  {
    hide IssuedFor, Digest;
    var first, second := SignUp(token.sub, token.text), SignIn(token.sub, newer, false);
    var w1 := Sessions.Step(NothingAt(start), first);
    var w2 := Sessions.Step(w1, second);
    assert Sessions.Run(NothingAt(start), [first, second]) == w2 by {
      assert [first, second][1..] == [second] && [second][1..] == [];
      assert Sessions.Run(w1, [second]) == Sessions.Run(w2, []);
    }
    OneUserOneDigest(newer, token.text, token.sub);
  }
}
