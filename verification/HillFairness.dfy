/** How long a queued player waits, counted in effective match ends (results and forfeits). */
module HillFairness {
  import opened Wrappers
  import opened Lists
  import opened Players
  import opened KingOfTheHill

  /** The effective match ends inside one event: a result at most one, a disconnect up to two. */
  function Ends(h: Hill, ev: Event): nat {
    match ev
    case MatchEnd(_) => if CanEnd(h) then 1 else 0
    case Disconnect(closed) =>
      if SocketIndex(h.queue, closed) >= 0 then 0
      else
        (if ChampionForfeits(h, closed) then 1 else 0) +
        (if ChallengerForfeits(AfterChampionForfeit(h, closed), closed) then 1 else 0)
    case _ => 0
  }

  function AllEnds(h: Hill, events: seq<Event>): nat
    decreases |events|
  {
    if events == [] then 0 else Ends(h, events[0]) + AllEnds(Step(h, events[0]), events[1..])
  }

  /** The event takes the user out of the queue without putting him in a slot. */
  predicate Withdraws(h: Hill, ev: Event, userId: string) {
    match ev
    case Leave(id) => id == userId
    case Disconnect(closed) =>
      var i := SocketIndex(h.queue, closed);
      i >= 0 && h.queue[i].userId == userId
    case _ => false
  }

  predicate EverWithdraws(h: Hill, events: seq<Event>, userId: string)
    decreases |events|
  {
    events != [] &&
    (Withdraws(h, events[0], userId) || EverWithdraws(Step(h, events[0]), events[1..], userId))
  }

  ghost predicate WaitsAtMost(h: Hill, userId: string, bound: int) {
    exists j :: 0 <= j < |h.queue| && j <= bound && h.queue[j].userId == userId
  }

  lemma {:induction false} WithoutKeeps(queue: seq<PlayerState>, gone: string, i: nat)
    requires i < |queue| && queue[i].userId != gone
    ensures exists j :: 0 <= j <= i && j < |Without(queue, gone)| && Without(queue, gone)[j] == queue[i]
  {
    if i > 0 {
      WithoutKeeps(queue[1..], gone, i - 1);
      var j :| 0 <= j <= i - 1 && j < |Without(queue[1..], gone)| && Without(queue[1..], gone)[j] == queue[1..][i - 1];
      assert Without(queue, gone)[if queue[0].userId == gone then j else j + 1] == queue[i];
    } else {
      assert Without(queue, gone)[0] == queue[0];
    }
  }

  /** An effective end moves everybody in the queue forward by at least one place. */
  lemma EndAdvances(h: Hill, winnerId: Option<string>, i: nat)
    requires CanEnd(h) && i < |h.queue|
    ensures InSlot(EndMatch(h, winnerId), h.queue[i].userId)
         || WaitsAtMost(EndMatch(h, winnerId), h.queue[i].userId, i - 1)
  {
    var rotated, next, userId := Rotate(h, winnerId), EndMatch(h, winnerId), h.queue[i].userId;
    assert rotated.queue[i].userId == userId && Starts(rotated);
    if rotated.champion.None? {
      if i >= 2 { assert next.queue[i - 2].userId == userId; }
    } else {
      if i >= 1 { assert next.queue[i - 1].userId == userId; }
    }
  }

  /** After a champion's forfeit with somebody else waiting, the new challenger is not on the closed socket, so the
      second forfeit test does not fire. */
  lemma OneForfeitAtMost(h: Hill, closed: set<PlayerState>)
    requires h.queue != [] && SocketIndex(h.queue, closed) < 0 && ChampionForfeits(h, closed)
    ensures !ChallengerForfeits(AfterChampionForfeit(h, closed), closed)
  {
    var rotated := Rotate(h, Some(h.challenger.value.userId));
    assert Starts(rotated) && rotated.champion.Some? && rotated.queue[0] == h.queue[0];
  }

  lemma RemovalAdvances(queue: seq<PlayerState>, k: nat, i: nat)
    requires k < |queue| && i < |queue| && k != i
    ensures exists j :: 0 <= j <= i && j < |queue| - 1 && RemoveAt(queue, k)[j] == queue[i]
  {
    assert RemoveAt(queue, k)[if k < i then i - 1 else i] == queue[i];
  }

  lemma ForfeitsAdvance(h: Hill, closed: set<PlayerState>, i: nat)
    requires i < |h.queue| && SocketIndex(h.queue, closed) < 0
    ensures Ends(h, Disconnect(closed)) <= 1
    ensures InSlot(DropSocket(h, closed), h.queue[i].userId)
         || WaitsAtMost(DropSocket(h, closed), h.queue[i].userId, i - Ends(h, Disconnect(closed)))
  {
    if ChampionForfeits(h, closed) {
      OneForfeitAtMost(h, closed);
      EndAdvances(h, Some(h.challenger.value.userId), i);
    } else if ChallengerForfeits(h, closed) {
      EndAdvances(h, Some(h.champion.value.userId), i);
    }
  }

  lemma DropAdvances(h: Hill, closed: set<PlayerState>, i: nat)
    requires i < |h.queue| && !Withdraws(h, Disconnect(closed), h.queue[i].userId)
    ensures Ends(h, Disconnect(closed)) <= 1
    ensures InSlot(DropSocket(h, closed), h.queue[i].userId)
         || WaitsAtMost(DropSocket(h, closed), h.queue[i].userId, i - Ends(h, Disconnect(closed)))
  {
    var k := SocketIndex(h.queue, closed);
    if k >= 0 {
      RemovalAdvances(h.queue, k, i);
    } else {
      ForfeitsAdvance(h, closed, i);
    }
  }

  lemma StepAdvances(h: Hill, ev: Event, i: nat)
    requires i < |h.queue| && !Withdraws(h, ev, h.queue[i].userId)
    ensures Ends(h, ev) <= 1
    ensures InSlot(Step(h, ev), h.queue[i].userId) || WaitsAtMost(Step(h, ev), h.queue[i].userId, i - Ends(h, ev))
  {
    var userId := h.queue[i].userId;
    match ev
    case Join(player) =>
      if !Queued(h, player.userId) && !InSlot(h, player.userId) {
        JoinAdvances(h, player, i);
      }
    case Leave(gone) => WithoutKeeps(h.queue, gone, i);
    case Disconnect(closed) => DropAdvances(h, closed, i);
    case MatchEnd(winnerId) => if CanEnd(h) { EndAdvances(h, winnerId, i); }
    case RoomReady(room) =>
  }

  lemma JoinAdvances(h: Hill, player: PlayerState, i: nat)
    requires i < |h.queue|
    ensures var h' := TryStart(h.(queue := h.queue + [player]));
      InSlot(h', h.queue[i].userId) || WaitsAtMost(h', h.queue[i].userId, i)
  {
    var longer := h.(queue := h.queue + [player]);
    var h' := TryStart(longer);
    assert longer.queue[i] == h.queue[i];
    if Starts(longer) {
      var shift := if h.champion.None? then 2 else 1;
      if i >= shift { assert h'.queue[i - shift].userId == h.queue[i].userId; }
    } else {
      assert h'.queue[i].userId == h.queue[i].userId;
    }
  }

  /** Bounded waiting: a user at 0-based position i who is not withdrawn has been champion or challenger after at
      most i + 1 effective match ends, whatever joins, leaves, draws, forfeits and late room ids interleave. */
  lemma {:induction false} BoundedWaiting(h: Hill, events: seq<Event>, i: nat)
    requires i < |h.queue| && !EverWithdraws(h, events, h.queue[i].userId)
    requires AllEnds(h, events) > i
    ensures exists k ::
      0 < k <= |events| && InSlot(Run(h, events[..k]), h.queue[i].userId) && AllEnds(h, events[..k]) <= i + 1
    decreases |events|
  {
    var userId, h1, rest := h.queue[i].userId, Step(h, events[0]), events[1..];
    StepAdvances(h, events[0], i);
    if InSlot(h1, userId) {
      RunOfPrefix(h, events, 0);
    } else {
      var j :| 0 <= j < |h1.queue| && j <= i - Ends(h, events[0]) && h1.queue[j].userId == userId;
      BoundedWaiting(h1, rest, j);
      var k :| 0 < k <= |rest| && InSlot(Run(h1, rest[..k]), userId) && AllEnds(h1, rest[..k]) <= j + 1;
      RunOfPrefix(h, events, k);
    }
  }

  lemma RunOfPrefix(h: Hill, events: seq<Event>, k: nat)
    requires k < |events|
    ensures Run(h, events[..k + 1]) == Run(Step(h, events[0]), events[1..][..k])
    ensures AllEnds(h, events[..k + 1]) == Ends(h, events[0]) + AllEnds(Step(h, events[0]), events[1..][..k])
  {
    assert events[..k + 1][0] == events[0] && events[..k + 1][1..] == events[1..][..k];
  }

  /** The champion of `h` wins n times in a row. */
  function TitleDefences(champion: string, n: nat): seq<Event> {
    seq(n, _ => MatchEnd(Some(champion)))
  }

  /** The bound cannot be lowered: while the champion keeps winning, the user at position i is still only queued
      after i effective ends. */
  lemma {:induction false} BoundIsTight(h: Hill, i: nat, n: nat)
    requires CanEnd(h) && i < |h.queue| && n <= i
    ensures
      var h' := Run(h, TitleDefences(h.champion.value.userId, n));
      && AllEnds(h, TitleDefences(h.champion.value.userId, n)) == n
      && h'.champion == h.champion && CanEnd(h') && i - n < |h'.queue| && h'.queue[i - n] == h.queue[i]
    decreases n
  {
    if n > 0 {
      var champion := h.champion.value.userId;
      var events := TitleDefences(champion, n);
      var h1 := Step(h, events[0]);
      assert Rotate(h, Some(champion)).queue[i] == h.queue[i];
      assert h1.queue[i - 1] == h.queue[i];
      assert events[1..] == TitleDefences(champion, n - 1);
      BoundIsTight(h1, i - 1, n - 1);
    }
  }
}
