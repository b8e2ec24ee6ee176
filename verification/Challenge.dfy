/** The stored wallet challenge `address::nonce::message` and the sign-in challenge `nonce::message`, with the
    `indexOf` and `substring` calls that take them apart again. */
module Challenge {
  datatype Stored = Stored(address: string, message: string)

  const SEPARATOR := "::"

  /** A separator starts at this position. */
  predicate SeparatorAt(s: string, i: int) {
    0 <= i < |s| - 1 && s[i] == ':' && s[i + 1] == ':'
  }

  /** `s.indexOf('::', from)`; a negative start counts as zero. */
  function IndexOf(s: string, from: int): (r: int)
    ensures r == -1 || (SeparatorAt(s, r) && r >= from)
    ensures forall i :: from <= i && SeparatorAt(s, i) ==> r != -1 && r <= i
    decreases |s| - from
  {
    if from < 0 then IndexOf(s, 0)
    else if from >= |s| then -1
    else if SeparatorAt(s, from) then from
    else IndexOf(s, from + 1)
  }

  function Clamp(s: string, i: int): nat {
    if i < 0 then 0 else if i > |s| then |s| else i
  }

  /** `s.substring(from, to)`: out-of-range ends are clamped and crossed ends exchanged. */
  function Substring(s: string, from: int, to: int): string {
    var a, b := Clamp(s, from), Clamp(s, to);
    if a <= b then s[a..b] else s[b..a]
  }

  function Lower(c: char): char {
    if 'A' <= c <= 'Z' then (c as int - 'A' as int + 'a' as int) as char else c
  }

  const UPPER := "ABCDEFGHIJKLMNOPQRSTUVWXYZ"
  const LOWER := "abcdefghijklmnopqrstuvwxyz"

  lemma LettersInOrder(i: nat)
    requires i < 26
    ensures UPPER[i] as int == 'A' as int + i && LOWER[i] as int == 'a' as int + i
  {
  }

  /** Capital letters become small, and nothing else changes. */
  lemma LowerIs(c: char, i: nat)
    requires i < 26
    ensures UPPER[i] == c ==> Lower(c) == LOWER[i]
    ensures c !in UPPER ==> Lower(c) == c
  {
    LettersInOrder(i);
    if 'A' <= c <= 'Z' {
      LettersInOrder(c as int - 'A' as int);
      assert c in UPPER;
    }
  }

  /** `toLowerCase` on the letters an address can hold. */
  function ToLowerCase(s: string): (r: string)
    ensures |r| == |s| && forall i :: 0 <= i < |s| ==> r[i] == Lower(s[i])
  {
    seq(|s|, i requires 0 <= i < |s| => Lower(s[i]))
  }

  function WalletRecord(address: string, nonce: string, message: string): string {
    ToLowerCase(address) + SEPARATOR + nonce + SEPARATOR + message
  }

  function ParseWalletRecord(stored: string): Stored {
    var firstDouble := IndexOf(stored, 0);
    var secondDouble := IndexOf(stored, firstDouble + 2);
    Stored(Substring(stored, 0, firstDouble), Substring(stored, secondDouble + 2, |stored|))
  }

  function SignInRecord(nonce: string, message: string): string {
    nonce + SEPARATOR + message
  }

  function ParseSignInRecord(stored: string): string {
    Substring(stored, IndexOf(stored, 0) + 2, |stored|)
  }

  /** No separator starts inside the part, nor at its last character once a separator follows. */
  predicate Separable(part: string) {
    forall i :: 0 <= i < |part| ==> !SeparatorAt(part + ":", i)
  }

  lemma ColonFreeIsSeparable(part: string)
    requires ':' !in part
    ensures Separable(part)
  {
  }

  lemma SeparatorInSlice(s: string, from: nat, at: nat, i: nat)
    requires from <= i < at && SeparatorAt(s, at)
    ensures SeparatorAt(s[from..at] + ":", i - from) <==> SeparatorAt(s, i)
  {
  }

  /** The first separator from a position on is a known later one, if and only if the part between is separable. */
  lemma FirstSeparatorIff(s: string, from: nat, at: nat)
    requires from <= at && SeparatorAt(s, at)
    ensures IndexOf(s, from) == at <==> Separable(s[from..at])
    ensures from <= IndexOf(s, from) <= at
  {
    hide IndexOf;
    var found := IndexOf(s, from);
    if found < at {
      SeparatorInSlice(s, from, at, found);
    } else {
      forall i | 0 <= i < at - from ensures !SeparatorAt(s[from..at] + ":", i) {
        SeparatorInSlice(s, from, at, from + i);
      }
    }
  }

  /** `substring` calls with ends in order cut at exactly these ends. */
  lemma CutIff(s: string, at: nat, found: nat)
    requires at <= |s| && found <= |s|
    ensures Substring(s, 0, found) == s[..at] <==> found == at
    ensures Substring(s, found, |s|) == s[at..] <==> found == at
  {
    assert Substring(s, 0, found) == s[..found] && Substring(s, found, |s|) == s[found..];
    if found != at {
      assert |s[..found]| != |s[..at]| && |s[found..]| != |s[at..]|;
    }
  }

  lemma PartsOfPair(part: string, rest: string)
    ensures
      var s := part + SEPARATOR + rest;
      s[..|part|] == part && SeparatorAt(s, |part|) && s[|part| + 2..] == rest
  {
  }

  lemma PartsOfTriple(part: string, middle: string, rest: string)
    ensures
      var s := part + SEPARATOR + middle + SEPARATOR + rest;
      var a, b := |part|, |part| + 2 + |middle|;
      && b + 2 <= |s| && SeparatorAt(s, a) && SeparatorAt(s, b)
      && s[..a] == part && s[a + 2..b] == middle && s[b + 2..] == rest
  {
    var s := part + SEPARATOR + middle + SEPARATOR + rest;
    PartsOfPair(part, middle + SEPARATOR + rest);
    assert s == part + SEPARATOR + (middle + SEPARATOR + rest);
    PartsOfPair(part + SEPARATOR + middle, rest);
  }

  /** Round trip: the parser returns the lower-cased address and the message, whatever the message contains, if and only
      if the lower-cased address and the nonce are separable. */
  lemma WalletRoundTripIff(address: string, nonce: string, message: string)
    ensures ParseWalletRecord(WalletRecord(address, nonce, message)) == Stored(ToLowerCase(address), message) <==>
      Separable(ToLowerCase(address)) && Separable(nonce)
  {
    hide IndexOf, Substring, Separable;
    var stored, a := WalletRecord(address, nonce, message), |address|;
    var b := a + 2 + |nonce|;
    PartsOfTriple(ToLowerCase(address), nonce, message);
    FirstSeparatorIff(stored, 0, a);
    CutIff(stored, a, IndexOf(stored, 0));
    FirstSeparatorIff(stored, a + 2, b);
    CutIff(stored, b + 2, IndexOf(stored, a + 2) + 2);
  }

  /** In particular for every colon-free address and nonce, the nonce possibly empty. */
  lemma WalletRoundTrip(address: string, nonce: string, message: string)
    requires ':' !in address && ':' !in nonce
    ensures ParseWalletRecord(WalletRecord(address, nonce, message)) == Stored(ToLowerCase(address), message)
  {
    ColonFreeIsSeparable(nonce);
    forall i | 0 <= i < |address| ensures ToLowerCase(address)[i] != ':' {
      assert address[i] in address;
    }
    ColonFreeIsSeparable(ToLowerCase(address));
    WalletRoundTripIff(address, nonce, message);
  }

  lemma SignInRoundTripIff(nonce: string, message: string)
    ensures ParseSignInRecord(SignInRecord(nonce, message)) == message <==> Separable(nonce)
  {
    hide IndexOf, Substring, Separable;
    var stored := SignInRecord(nonce, message);
    PartsOfPair(nonce, message);
    FirstSeparatorIff(stored, 0, |nonce|);
    CutIff(stored, |nonce| + 2, IndexOf(stored, 0) + 2);
  }
}
