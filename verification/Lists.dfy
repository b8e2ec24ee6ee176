/** The array operations of the queues. */
module Lists {
  function Min(x: nat, y: nat): nat {
    if x < y then x else y
  }

  /** `findIndex`. */
  function FindIndex<T>(s: seq<T>, p: T -> bool): (i: int)
    ensures -1 <= i < |s|
    ensures i >= 0 ==> p(s[i]) && forall j :: 0 <= j < i ==> !p(s[j])
    ensures i < 0 ==> forall j :: 0 <= j < |s| ==> !p(s[j])
  {
    if s == [] then -1
    else if p(s[0]) then 0
    else
      var rest := FindIndex(s[1..], p);
      assert forall j :: 1 <= j < |s| ==> s[j] == s[1..][j - 1];
      if rest < 0 then -1 else rest + 1
  }

  /** The position is determined by its contract, so a search loop may stop at the first match. */
  lemma {:induction false} FindIndexIs<T>(s: seq<T>, p: T -> bool, i: int)
    requires -1 <= i < |s|
    requires if i < 0 then forall j :: 0 <= j < |s| ==> !p(s[j]) else p(s[i]) && forall j :: 0 <= j < i ==> !p(s[j])
    ensures FindIndex(s, p) == i
  {
  }

  /** `splice(i, 1)`. */
  function RemoveAt<T>(s: seq<T>, i: nat): seq<T>
    requires i < |s|
  {
    s[..i] + s[i + 1..]
  }
}
