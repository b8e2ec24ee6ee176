/** King of the Hill in one squad: champion, challenger and a FIFO queue.  Every event is one synchronous segment
    of the gateway.  `RoomReady` is the later segment in which a started match learns its room id, so everything
    here holds however room creation interleaves with the other events. */
module KingOfTheHill {
  import opened Wrappers
  import opened Lists
  import opened Players

  datatype Hill = Hill(
    champion: Option<PlayerState>, challenger: Option<PlayerState>, queue: seq<PlayerState>,
    room: Option<RoomId>, inProgress: bool)

  const EMPTY := Hill(None, None, [], None, false)

  /** `closed` holds the player objects that are on the closed socket at that moment. */
  datatype Event =
    | Join(player: PlayerState)
    | Leave(userId: string)
    | Disconnect(closed: set<PlayerState>)
    | MatchEnd(winnerId: Option<string>)
    | RoomReady(room: RoomId)

  predicate IsUser(slot: Option<PlayerState>, userId: string) {
    slot.Some? && slot.value.userId == userId
  }

  predicate IsOneOf(slot: Option<PlayerState>, closed: set<PlayerState>) {
    slot.Some? && slot.value in closed
  }

  predicate InSlot(h: Hill, userId: string) {
    IsUser(h.champion, userId) || IsUser(h.challenger, userId)
  }

  predicate Queued(h: Hill, userId: string) {
    exists i :: 0 <= i < |h.queue| && h.queue[i].userId == userId
  }

  predicate Starts(h: Hill) {
    !h.inProgress && (if h.champion.None? then |h.queue| >= 2 else |h.queue| >= 1)
  }

  function TryStart(h: Hill): Hill {
    if !Starts(h) then h
    else if h.champion.None? then
      h.(champion := Some(h.queue[0]), challenger := Some(h.queue[1]), queue := h.queue[2..], inProgress := true)
    else
      h.(challenger := Some(h.queue[0]), queue := h.queue[1..], inProgress := true)
  }

  function JoinQueue(h: Hill, player: PlayerState): Hill {
    if Queued(h, player.userId) || InSlot(h, player.userId) then h
    else TryStart(h.(queue := h.queue + [player]))
  }

  function Without(queue: seq<PlayerState>, userId: string): seq<PlayerState> {
    if queue == [] then []
    else if queue[0].userId == userId then Without(queue[1..], userId)
    else [queue[0]] + Without(queue[1..], userId)
  }

  /** The guard of `handleMatchEnd`: other notices change nothing. */
  predicate CanEnd(h: Hill) {
    h.champion.Some? && h.challenger.Some?
  }

  /** What the end of a match does before the next one is started.  The empty string is falsy, so it is a draw. */
  function Rotate(h: Hill, winnerId: Option<string>): Hill
    requires CanEnd(h)
  {
    var stopped := h.(inProgress := false, room := None);
    if winnerId.None? || winnerId.value == "" then
      stopped.(queue := h.queue + [h.champion.value] + [h.challenger.value], champion := None, challenger := None)
    else if winnerId.value == h.champion.value.userId then
      stopped.(queue := h.queue + [h.challenger.value], challenger := None)
    else
      stopped.(queue := h.queue + [h.champion.value], champion := h.challenger, challenger := None)
  }

  function EndMatch(h: Hill, winnerId: Option<string>): Hill {
    if CanEnd(h) then TryStart(Rotate(h, winnerId)) else h
  }

  function OneOf(closed: set<PlayerState>): PlayerState -> bool {
    (p: PlayerState) => p in closed
  }

  /** `findIndex` on the queue by the closed socket. */
  function SocketIndex(queue: seq<PlayerState>, closed: set<PlayerState>): (i: int)
    ensures -1 <= i < |queue|
    ensures i >= 0 ==> queue[i] in closed
    ensures i < 0 ==> forall j :: 0 <= j < |queue| ==> queue[j] !in closed
  {
    FindIndex(queue, OneOf(closed))
  }

  predicate ChampionForfeits(h: Hill, closed: set<PlayerState>) {
    IsOneOf(h.champion, closed) && h.inProgress && h.challenger.Some?
  }

  predicate ChallengerForfeits(h: Hill, closed: set<PlayerState>) {
    IsOneOf(h.challenger, closed) && h.inProgress && h.champion.Some?
  }

  /** The two forfeit tests run one after the other, so the second sees what the first one started. */
  function AfterChampionForfeit(h: Hill, closed: set<PlayerState>): Hill {
    if ChampionForfeits(h, closed) then EndMatch(h, Some(h.challenger.value.userId)) else h
  }

  function DropSocket(h: Hill, closed: set<PlayerState>): Hill {
    var i := SocketIndex(h.queue, closed);
    if i >= 0 then h.(queue := RemoveAt(h.queue, i))
    else
      var h1 := AfterChampionForfeit(h, closed);
      if ChallengerForfeits(h1, closed) then EndMatch(h1, Some(h1.champion.value.userId)) else h1
  }

  function Step(h: Hill, ev: Event): Hill {
    match ev
    case Join(player) => JoinQueue(h, player)
    case Leave(userId) => h.(queue := Without(h.queue, userId))
    case Disconnect(closed) => DropSocket(h, closed)
    case MatchEnd(winnerId) => EndMatch(h, winnerId)
    case RoomReady(room) => h.(room := Some(room))
  }

  function Run(h: Hill, events: seq<Event>): Hill
    decreases |events|
  {
    if events == [] then h else Run(Step(h, events[0]), events[1..])
  }

  // ---------------------------------------------------------------------------------------------
  // Conservation and work conservation
  // ---------------------------------------------------------------------------------------------

  function Slot(slot: Option<PlayerState>): multiset<PlayerState> {
    if slot.Some? then multiset{slot.value} else multiset{}
  }

  /** Everybody the hill holds, in whatever place. */
  function Roster(h: Hill): multiset<PlayerState> {
    Slot(h.champion) + Slot(h.challenger) + multiset(h.queue)
  }

  ghost predicate UniqueUsers(m: multiset<PlayerState>) {
    && (forall p :: p in m ==> m[p] == 1)
    && (forall p, q :: p in m && q in m && p.userId == q.userId ==> p == q)
  }

  /** Both slots are filled exactly while a match is in progress; and without a match at most one player waits, so no
      match that could be played is left waiting. */
  ghost predicate Busy(h: Hill) {
    && (h.champion.Some? <==> h.inProgress)
    && (h.challenger.Some? <==> h.inProgress)
    && (!h.inProgress ==> |h.queue| <= 1)
  }

  /** Besides, no user is held twice. */
  ghost predicate Inv(h: Hill) {
    UniqueUsers(Roster(h)) && Busy(h)
  }

  /** The players an event admits. */
  function Admitted(h: Hill, ev: Event): multiset<PlayerState> {
    match ev
    case Join(player) => if Queued(h, player.userId) || InSlot(h, player.userId) then multiset{} else multiset{player}
    case _ => multiset{}
  }

  /** The players an event removes: those who leave, or whose socket closes, while they are queued. */
  function Dismissed(h: Hill, ev: Event): multiset<PlayerState> {
    match ev
    case Leave(userId) => multiset(Holding(h.queue, userId))
    case Disconnect(closed) =>
      var i := SocketIndex(h.queue, closed);
      if i >= 0 then multiset{h.queue[i]} else multiset{}
    case _ => multiset{}
  }

  function Holding(queue: seq<PlayerState>, userId: string): seq<PlayerState> {
    if queue == [] then []
    else (if queue[0].userId == userId then [queue[0]] else []) + Holding(queue[1..], userId)
  }

  lemma {:induction false} WithoutAndHolding(queue: seq<PlayerState>, userId: string)
    ensures multiset(queue) == multiset(Without(queue, userId)) + multiset(Holding(queue, userId))
    ensures |Without(queue, userId)| <= |queue|
  {
    if queue != [] {
      WithoutAndHolding(queue[1..], userId);
      assert queue == [queue[0]] + queue[1..];
    }
  }

  lemma Pushed(queue: seq<PlayerState>, player: PlayerState)
    ensures multiset(queue + [player]) == multiset(queue) + multiset{player}
  {
  }

  lemma Shifted(queue: seq<PlayerState>)
    requires |queue| >= 1
    ensures multiset(queue) == multiset{queue[0]} + multiset(queue[1..])
  {
    assert queue == [queue[0]] + queue[1..];
  }

  lemma TryStartConserves(h: Hill)
    requires h.challenger.None? || h.inProgress
    ensures Roster(TryStart(h)) == Roster(h)
  {
    if Starts(h) {
      Shifted(h.queue);
      if h.champion.None? {
        Shifted(h.queue[1..]);
        assert h.queue[1..][1..] == h.queue[2..];
      }
    }
  }

  lemma Permuted(c: multiset<PlayerState>, d: multiset<PlayerState>, q: multiset<PlayerState>)
    ensures multiset{} + multiset{} + (q + c + d) == c + d + q
    ensures c + multiset{} + (q + d) == c + d + q
    ensures d + multiset{} + (q + c) == c + d + q
  {
  }

  lemma RotateConserves(h: Hill, winnerId: Option<string>)
    requires CanEnd(h)
    ensures Roster(Rotate(h, winnerId)) == Roster(h)
  {
    var champion, challenger := h.champion.value, h.challenger.value;
    Permuted(multiset{champion}, multiset{challenger}, multiset(h.queue));
    if winnerId.None? || winnerId.value == "" {
      Pushed(h.queue, champion);
      Pushed(h.queue + [champion], challenger);
    } else if winnerId.value == champion.userId {
      Pushed(h.queue, challenger);
    } else {
      Pushed(h.queue, champion);
    }
  }

  lemma EndConserves(h: Hill, winnerId: Option<string>)
    requires CanEnd(h)
    ensures Roster(EndMatch(h, winnerId)) == Roster(h)
  {
    RotateConserves(h, winnerId);
    var rotated := Rotate(h, winnerId);
    assert rotated.challenger.None?;
    TryStartConserves(rotated);
  }

  lemma Removed(queue: seq<PlayerState>, i: nat)
    requires i < |queue|
    ensures multiset(queue) == multiset(RemoveAt(queue, i)) + multiset{queue[i]}
  {
    assert queue == queue[..i] + [queue[i]] + queue[i + 1..];
  }

  lemma ForfeitsConserve(h: Hill, closed: set<PlayerState>)
    requires SocketIndex(h.queue, closed) < 0
    ensures Roster(DropSocket(h, closed)) == Roster(h)
  {
    if ChampionForfeits(h, closed) {
      EndConserves(h, Some(h.challenger.value.userId));
    }
    var h1 := AfterChampionForfeit(h, closed);
    if ChallengerForfeits(h1, closed) {
      EndConserves(h1, Some(h1.champion.value.userId));
    }
  }

  lemma RemovalConserves(h: Hill, i: nat)
    requires i < |h.queue|
    ensures Roster(h.(queue := RemoveAt(h.queue, i))) + multiset{h.queue[i]} == Roster(h)
  {
    Removed(h.queue, i);
    var slots, rest := Slot(h.champion) + Slot(h.challenger), multiset(RemoveAt(h.queue, i));
    assert slots + (rest + multiset{h.queue[i]}) == (slots + rest) + multiset{h.queue[i]};
  }

  lemma DropConserves(h: Hill, closed: set<PlayerState>)
    ensures Roster(DropSocket(h, closed)) + Dismissed(h, Disconnect(closed)) == Roster(h)
  {
    hide Roster, EndMatch, SocketIndex;
    var i := SocketIndex(h.queue, closed);
    if i >= 0 {
      RemovalConserves(h, i);
    } else {
      ForfeitsConserve(h, closed);
    }
  }

  lemma PushConserves(h: Hill, player: PlayerState)
    ensures Roster(h.(queue := h.queue + [player])) == Roster(h) + multiset{player}
  {
    Pushed(h.queue, player);
    var slots := Slot(h.champion) + Slot(h.challenger);
    assert slots + (multiset(h.queue) + multiset{player}) == (slots + multiset(h.queue)) + multiset{player};
  }

  lemma JoinConserves(h: Hill, player: PlayerState)
    requires Busy(h)
    ensures Roster(JoinQueue(h, player)) == Roster(h) + Admitted(h, Join(player))
  {
    var longer := h.(queue := h.queue + [player]);
    PushConserves(h, player);
    TryStartConserves(longer);
  }

  lemma LeaveConserves(h: Hill, userId: string)
    ensures Roster(h.(queue := Without(h.queue, userId))) + multiset(Holding(h.queue, userId)) == Roster(h)
  {
    WithoutAndHolding(h.queue, userId);
    var slots := Slot(h.champion) + Slot(h.challenger);
    assert slots + (multiset(Without(h.queue, userId)) + multiset(Holding(h.queue, userId)))
        == (slots + multiset(Without(h.queue, userId))) + multiset(Holding(h.queue, userId));
  }

  /** One event only adds whom it admits and takes away whom it dismisses; match ends and forfeits permute. */
  lemma StepConserves(h: Hill, ev: Event)
    requires Busy(h)
    ensures Roster(Step(h, ev)) + Dismissed(h, ev) == Roster(h) + Admitted(h, ev)
  {
    hide JoinQueue, DropSocket, Without, Holding;
    match ev
    case Join(player) =>
      JoinConserves(h, player);
    case Leave(userId) =>
      LeaveConserves(h, userId);
    case Disconnect(closed) =>
      DropConserves(h, closed);
    case MatchEnd(winnerId) =>
      if CanEnd(h) { EndConserves(h, winnerId); }
    case RoomReady(room) =>
  }

  lemma NotHeld(h: Hill, userId: string)
    requires !Queued(h, userId) && !InSlot(h, userId)
    ensures forall p :: p in Roster(h) ==> p.userId != userId
  {
    forall p | p in Roster(h) ensures p.userId != userId {
      if p in multiset(h.queue) {
        var i :| 0 <= i < |h.queue| && h.queue[i] == p;
      }
    }
  }

  /** Uniqueness of users survives conservation. */
  lemma UniqueAfter(before: multiset<PlayerState>, admitted: multiset<PlayerState>,
                    after: multiset<PlayerState>, dismissed: multiset<PlayerState>)
    requires UniqueUsers(before) && after + dismissed == before + admitted
    requires admitted == multiset{} ||
      exists p :: admitted == multiset{p} && forall q :: q in before ==> q.userId != p.userId
    ensures UniqueUsers(after)
  {
    forall p | p in after ensures p in before + admitted && after[p] == 1 {
      assert (after + dismissed)[p] >= after[p];
      assert before[p] + admitted[p] <= 1;
    }
  }

  lemma StepKeepsUnique(h: Hill, ev: Event)
    requires Inv(h)
    ensures UniqueUsers(Roster(Step(h, ev)))
  {
    StepConserves(h, ev);
    if ev.Join? && !Queued(h, ev.player.userId) && !InSlot(h, ev.player.userId) {
      NotHeld(h, ev.player.userId);
    }
    UniqueAfter(Roster(h), Admitted(h, ev), Roster(Step(h, ev)), Dismissed(h, ev));
  }

  /** Every effective end is followed by the next match in the same segment. */
  lemma EndRestarts(h: Hill, winnerId: Option<string>)
    requires CanEnd(h)
    ensures CanEnd(EndMatch(h, winnerId)) && EndMatch(h, winnerId).inProgress && EndMatch(h, winnerId).room.None?
  {
    assert Starts(Rotate(h, winnerId));
  }

  lemma DropKeepsBusy(h: Hill, closed: set<PlayerState>)
    requires Busy(h)
    ensures Busy(DropSocket(h, closed)) && (h.inProgress ==> DropSocket(h, closed).inProgress)
  {
    if SocketIndex(h.queue, closed) < 0 {
      if ChampionForfeits(h, closed) {
        EndRestarts(h, Some(h.challenger.value.userId));
      }
      var h1 := AfterChampionForfeit(h, closed);
      if ChallengerForfeits(h1, closed) {
        EndRestarts(h1, Some(h1.champion.value.userId));
      }
    }
  }

  lemma StepKeepsBusy(h: Hill, ev: Event)
    requires Busy(h)
    ensures Busy(Step(h, ev)) && (h.inProgress ==> Step(h, ev).inProgress)
  {
    match ev
    case Join(player) =>
    case Leave(userId) => WithoutAndHolding(h.queue, userId);
    case Disconnect(closed) => DropKeepsBusy(h, closed);
    case MatchEnd(winnerId) => if CanEnd(h) { EndRestarts(h, winnerId); }
    case RoomReady(room) =>
  }

  lemma StepPreservesInv(h: Hill, ev: Event)
    requires Inv(h)
    ensures Inv(Step(h, ev)) && (h.inProgress ==> Step(h, ev).inProgress)
  {
    StepKeepsUnique(h, ev);
    StepKeepsBusy(h, ev);
  }

  function AllAdmitted(h: Hill, events: seq<Event>): multiset<PlayerState>
    decreases |events|
  {
    if events == [] then multiset{} else Admitted(h, events[0]) + AllAdmitted(Step(h, events[0]), events[1..])
  }

  function AllDismissed(h: Hill, events: seq<Event>): multiset<PlayerState>
    decreases |events|
  {
    if events == [] then multiset{} else Dismissed(h, events[0]) + AllDismissed(Step(h, events[0]), events[1..])
  }

  lemma ChainsUp(roster: multiset<PlayerState>, middle: multiset<PlayerState>, final: multiset<PlayerState>,
                 a: multiset<PlayerState>, a': multiset<PlayerState>,
                 d: multiset<PlayerState>, d': multiset<PlayerState>)
    requires middle + d == roster + a && final + d' == middle + a'
    ensures final + (d + d') == roster + (a + a')
  {
    assert final + (d + d') == (final + d') + d;
    assert (middle + a') + d == (middle + d) + a';
    assert (roster + a) + a' == roster + (a + a');
  }

  /** Conservation over whole runs: the hill holds exactly those admitted and not dismissed, nobody twice. */
  lemma {:induction false} RunConserves(h: Hill, events: seq<Event>)
    requires Inv(h)
    ensures Inv(Run(h, events))
    ensures Roster(Run(h, events)) + AllDismissed(h, events) == Roster(h) + AllAdmitted(h, events)
    decreases |events|
  {
    if events != [] {
      StepPreservesInv(h, events[0]);
      StepConserves(h, events[0]);
      var h1, rest := Step(h, events[0]), events[1..];
      RunConserves(h1, rest);
      ChainsUp(Roster(h), Roster(h1), Roster(Run(h1, rest)), Admitted(h, events[0]), AllAdmitted(h1, rest),
               Dismissed(h, events[0]), AllDismissed(h1, rest));
    }
  }

  lemma {:induction false} HillHoldsExactlyThoseWhoStayed(events: seq<Event>)
    ensures Inv(Run(EMPTY, events))
    ensures AllDismissed(EMPTY, events) <= AllAdmitted(EMPTY, events)
    ensures Roster(Run(EMPTY, events)) == AllAdmitted(EMPTY, events) - AllDismissed(EMPTY, events)
  {
    assert Roster(EMPTY) == multiset{};
    RunConserves(EMPTY, events);
    var roster, out, admitted := Roster(Run(EMPTY, events)), AllDismissed(EMPTY, events), AllAdmitted(EMPTY, events);
    assert roster + out == admitted;
    assert roster == (roster + out) - out;
  }

  // ---------------------------------------------------------------------------------------------
  // Who plays next
  // ---------------------------------------------------------------------------------------------

  function Seat(slot: Option<PlayerState>): seq<PlayerState> {
    if slot.Some? then [slot.value] else []
  }

  /** Champion, challenger, then the queue. */
  function Order(h: Hill): seq<PlayerState> {
    Seat(h.champion) + Seat(h.challenger) + h.queue
  }

  lemma TryStartKeepsOrder(h: Hill)
    requires h.challenger.None? || h.inProgress
    ensures Order(TryStart(h)) == Order(h)
  {
    if Starts(h) {
      if h.champion.None? {
        assert h.queue == [h.queue[0]] + [h.queue[1]] + h.queue[2..];
      } else {
        assert h.queue == [h.queue[0]] + h.queue[1..];
      }
    }
  }

  /** A new player is always last in the order, also when his join starts a match. */
  lemma JoinIsLast(h: Hill, player: PlayerState)
    requires Busy(h) && !Queued(h, player.userId) && !InSlot(h, player.userId)
    ensures Order(JoinQueue(h, player)) == Order(h) + [player]
  {
    var longer := h.(queue := h.queue + [player]);
    TryStartKeepsOrder(longer);
    assert Order(longer) == Order(h) + [player];
  }

  /** The rules of the hill: the winner is champion of the next match, the loser goes behind everybody who waits, and
      the head of that line is the next challenger; after a draw both players go behind the line, and its first two
      play. */
  lemma WinnerStaysLoserQueues(h: Hill, winnerId: Option<string>)
    requires CanEnd(h)
    requires winnerId.Some? ==> winnerId.value in {"", h.champion.value.userId, h.challenger.value.userId}
    requires h.champion.value.userId != h.challenger.value.userId
    ensures
      var draw := winnerId.None? || winnerId.value == "";
      var line := Order(EndMatch(h, winnerId));
      && (draw ==> line == h.queue + [h.champion.value, h.challenger.value])
      && (!draw ==> |line| == |h.queue| + 2 && line[0].userId == winnerId.value
                    && line[0] in {h.champion.value, h.challenger.value}
                    && line[1..|line| - 1] == h.queue
                    && {line[0], line[|line| - 1]} == {h.champion.value, h.challenger.value})
  {
    TryStartKeepsOrder(Rotate(h, winnerId));
  }

  /** The two players of a match are different users, so the room they share has two players. */
  lemma ChampionIsNotChallenger(h: Hill)
    requires Inv(h) && CanEnd(h)
    ensures h.champion.value != h.challenger.value && h.champion.value.userId != h.challenger.value.userId
  {
    var champion, challenger := h.champion.value, h.challenger.value;
    assert champion in Roster(h) && challenger in Roster(h);
    assert champion == challenger ==> Roster(h)[champion] >= 2;
  }

  /** Once a squad plays it never stops: every effective end is followed at once by the next match. */
  lemma {:induction false} OnceStartedNeverIdle(h: Hill, events: seq<Event>)
    requires Inv(h) && h.inProgress
    ensures Run(h, events).inProgress
    decreases |events|
  {
    if events != [] {
      var ev := events[0];
      StepPreservesInv(h, ev);
      OnceStartedNeverIdle(Step(h, ev), events[1..]);
    }
  }
}
