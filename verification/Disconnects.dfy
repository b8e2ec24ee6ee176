/** What a closed socket leaves behind in the squads. */
module Disconnects {
  import opened Wrappers
  import opened Lists
  import opened Players
  import opened KingOfTheHill
  import opened SquadWorld

  // ---------------------------------------------------------------------------------------------
  // One hill
  // ---------------------------------------------------------------------------------------------

  ghost predicate HeldOn(roster: multiset<PlayerState>, closed: set<PlayerState>) {
    exists p :: p in roster && p in closed
  }

  /** A slot, or a queue entry other than the first one on the socket. */
  ghost predicate StaysBehind(h: Hill, closed: set<PlayerState>) {
    || IsOneOf(h.champion, closed) || IsOneOf(h.challenger, closed)
    || exists j :: 0 <= j < |h.queue| && j != SocketIndex(h.queue, closed) && h.queue[j] in closed
  }

  lemma QueueHolds(queue: seq<PlayerState>, p: PlayerState)
    ensures p in multiset(queue) <==> exists j :: 0 <= j < |queue| && queue[j] == p
  {
  }

  lemma HeldIff(h: Hill, closed: set<PlayerState>)
    ensures HeldOn(Roster(h), closed) <==>
      || IsOneOf(h.champion, closed) || IsOneOf(h.challenger, closed)
      || exists j :: 0 <= j < |h.queue| && h.queue[j] in closed
  {
    if j :| 0 <= j < |h.queue| && h.queue[j] in closed {
      QueueHolds(h.queue, h.queue[j]);
      assert h.queue[j] in Roster(h);
    }
    if IsOneOf(h.champion, closed) { assert h.champion.value in Roster(h); }
    if IsOneOf(h.challenger, closed) { assert h.challenger.value in Roster(h); }
    if HeldOn(Roster(h), closed) {
      var p :| p in Roster(h) && p in closed;
      QueueHolds(h.queue, p);
    }
  }

  lemma RemovedEntries(queue: seq<PlayerState>, i: nat, closed: set<PlayerState>)
    requires i < |queue|
    ensures (exists j :: 0 <= j < |RemoveAt(queue, i)| && RemoveAt(queue, i)[j] in closed) <==>
            (exists j :: 0 <= j < |queue| && j != i && queue[j] in closed)
  {
    var rest := RemoveAt(queue, i);
    assert forall j :: 0 <= j < |rest| ==> rest[j] == queue[if j < i then j else j + 1];
    forall j | 0 <= j < |queue| && j != i ensures queue[j] == rest[if j < i then j else j - 1] {
    }
  }

  /** After the disconnect is handled for a squad, it still holds somebody on the closed socket exactly if the socket
      was in a slot or had one more queue entry. */
  lemma StillHeldIff(h: Hill, closed: set<PlayerState>)
    ensures HeldOn(Roster(DropSocket(h, closed)), closed) <==> StaysBehind(h, closed)
  {
    var i := SocketIndex(h.queue, closed);
    if i >= 0 {
      HeldIff(h.(queue := RemoveAt(h.queue, i)), closed);
      RemovedEntries(h.queue, i, closed);
    } else {
      ForfeitsConserve(h, closed);
      HeldIff(h, closed);
    }
  }

  /** The player who forfeits, and the one who wins by it. */
  function Forfeiter(h: Hill, closed: set<PlayerState>): PlayerState
    requires CanEnd(h)
  {
    if IsOneOf(h.champion, closed) then h.champion.value else h.challenger.value
  }

  function Remaining(h: Hill, closed: set<PlayerState>): PlayerState
    requires CanEnd(h)
  {
    if IsOneOf(h.champion, closed) then h.challenger.value else h.champion.value
  }

  /** The disconnect of a player in a slot while nobody waits on his socket. */
  ghost predicate Forfeit(h: Hill, closed: set<PlayerState>) {
    && CanEnd(h) && h.inProgress && h.champion.value.userId != h.challenger.value.userId
    && SocketIndex(h.queue, closed) < 0 && (IsOneOf(h.champion, closed) || IsOneOf(h.challenger, closed))
  }

  lemma EndOrder(h: Hill, winner: PlayerState)
    requires CanEnd(h) && h.champion.value.userId != h.challenger.value.userId
    requires winner in {h.champion.value, h.challenger.value}
    ensures
      var loser := if winner == h.champion.value then h.challenger.value else h.champion.value;
      var h' := EndMatch(h, Some(winner.userId));
      && Order(h') == [winner] + h.queue + [loser]
      && h'.champion == Some(winner) && CanEnd(h') && h'.inProgress
      && h'.challenger == Some((h.queue + [loser])[0]) && h'.queue == (h.queue + [loser])[1..]
  {
    TryStartKeepsOrder(Rotate(h, Some(winner.userId)));
  }

  /** The forfeiter ends behind everybody else: last in the queue, or in the challenger's seat at once if nobody
      waits. */
  lemma ForfeiterGoesLast(h: Hill, closed: set<PlayerState>)
    requires Forfeit(h, closed)
    ensures
      var h' := DropSocket(h, closed);
      var p := Forfeiter(h, closed);
      && Order(h') == [Remaining(h, closed)] + h.queue + [p]
      && CanEnd(h') && h'.champion.value == Remaining(h, closed)
      && (h.queue != [] ==> h'.queue != [] && h'.queue[|h'.queue| - 1] == p)
      && (h.queue == [] ==> h'.challenger.value == p && h'.queue == [])
  {
    var winner, p := Remaining(h, closed), Forfeiter(h, closed);
    EndOrder(h, winner);
    if ChampionForfeits(h, closed) {
      var h1 := AfterChampionForfeit(h, closed);
      if h.queue == [] {
        assert h1.champion.value == winner && h1.challenger.value == p && h1.queue == [];
        EndOrder(h1, winner);
      } else {
        assert h1.challenger.value == h.queue[0];
      }
    }
  }

  // ---------------------------------------------------------------------------------------------
  // All squads: which entries a close can reach
  // ---------------------------------------------------------------------------------------------

  /** The gateway handles a close of this socket for this squad. */
  predicate InSquad(w: World, squad: SquadId, socketId: string) {
    socketId in w.socketToSquad && w.socketToSquad[socketId] == squad
  }

  lemma CloseKeepsSockets(w: World, socketId: string)
    ensures CloseSocket(w, socketId).sockets == w.sockets
    ensures socketId !in CloseSocket(w, socketId).socketToSquad
  {
    if socketId in w.socketToSquad { DropKeepsSockets(w, w.socketToSquad[socketId], On(w, socketId)); }
  }

  /** After a close, in every squad: the one the socket is registered to holds somebody on it exactly if the socket was
      in a slot or had one more queue entry there, and every other squad exactly if it did before. */
  lemma SquadStillHoldsIff(w: World, socketId: string, squad: SquadId)
    requires squad in w.hills
    ensures squad in CloseSocket(w, socketId).hills
    ensures On(CloseSocket(w, socketId), socketId) == On(w, socketId)
    ensures HeldOn(Roster(CloseSocket(w, socketId).hills[squad]), On(w, socketId)) <==>
      if InSquad(w, squad, socketId) then StaysBehind(w.hills[squad], On(w, socketId))
      else HeldOn(Roster(w.hills[squad]), On(w, socketId))
  {
    hide Roster, DropSocket, StaysBehind, HeldOn, DropFrom;
    CloseKeepsSockets(w, socketId);
    if socketId in w.socketToSquad && w.socketToSquad[socketId] in w.hills {
      var t, closed := w.socketToSquad[socketId], On(w, socketId);
      DropIsHillDrop(w, t, closed);
      StillHeldIff(w.hills[t], closed);
      SeatedRoster(DropSocket(w.hills[t], closed), w.nextRoom, DropFrom(w, t, closed).nextRoom);
    } else {
      NoSquadDropped(w, socketId);
    }
  }

  lemma NoSquadDropped(w: World, socketId: string)
    requires socketId in w.socketToSquad ==> w.socketToSquad[socketId] !in w.hills
    ensures CloseSocket(w, socketId).hills == w.hills
  {
  }

  /** No user is held twice in any squad. */
  ghost predicate AllUnique(w: World) {
    forall s :: s in w.hills ==> Inv(w.hills[s])
  }

  lemma EmptyHill()
    ensures Inv(EMPTY) && Roster(EMPTY) == multiset{}
  {
  }

  lemma HeldCount(before: multiset<PlayerState>, admitted: multiset<PlayerState>,
                  after: multiset<PlayerState>, dismissed: multiset<PlayerState>, p: PlayerState)
    requires after + dismissed == before + admitted && (before + admitted)[p] <= 1
    ensures p in after <==> (p in before || p in admitted) && p !in dismissed
  {
    assert (after + dismissed)[p] == (before + admitted)[p];
  }

  lemma AtMostOnce(h: Hill, ev: Event, p: PlayerState)
    requires Inv(h)
    ensures (Roster(h) + Admitted(h, ev))[p] <= 1
  {
    if ev.Join? && !Queued(h, ev.player.userId) && !InSlot(h, ev.player.userId) {
      NotHeld(h, ev.player.userId);
    }
  }

  /** Who is held after an event. */
  lemma HeldAfterIff(h: Hill, ev: Event, p: PlayerState)
    requires Inv(h)
    ensures p in Roster(KingOfTheHill.Step(h, ev)) <==>
      (p in Roster(h) || p in Admitted(h, ev)) && p !in Dismissed(h, ev)
  {
    hide Roster, Dismissed, Admitted, KingOfTheHill.Step;
    StepConserves(h, ev);
    AtMostOnce(h, ev, p);
    HeldCount(Roster(h), Admitted(h, ev), Roster(KingOfTheHill.Step(h, ev)), Dismissed(h, ev), p);
  }

  lemma HillIsUnique(w: World, squad: SquadId)
    requires AllUnique(w)
    ensures Inv(HillOf(w, squad))
  {
    EmptyHill();
  }

  /** Who a squad holds after a request. */
  lemma SquadHoldsIff(w: World, request: Request, squad: SquadId, p: PlayerState)
    requires AllUnique(w)
    ensures p in Roster(HillOf(SquadWorld.Step(w, request), squad)) <==>
      if Subject(w, request) != Some(squad) then p in Roster(HillOf(w, squad))
      else
        var h, ev := HillOf(w, squad), HillEvent(w, request);
        (p in Roster(h) || p in Admitted(h, ev)) && p !in Dismissed(h, ev)
  {
    hide SquadWorld.Step, Roster, Dismissed, Admitted, KingOfTheHill.Step;
    StepIsHillStep(w, request);
    if Subject(w, request) == Some(squad) {
      var h, ev := HillOf(w, squad), HillEvent(w, request);
      HillIsUnique(w, squad);
      HeldAfterIff(h, ev, p);
      SeatedRoster(KingOfTheHill.Step(h, ev), w.nextRoom, SquadWorld.Step(w, request).nextRoom);
    }
  }

  lemma StepKeepsAllUnique(w: World, request: Request)
    requires AllUnique(w)
    ensures AllUnique(SquadWorld.Step(w, request))
  {
    hide SquadWorld.Step, KingOfTheHill.Step, Inv;
    StepIsHillStep(w, request);
    if Subject(w, request).Some? {
      var squad := Subject(w, request).value;
      HillIsUnique(w, squad);
      StepPreservesInv(HillOf(w, squad), HillEvent(w, request));
      SeatedInv(KingOfTheHill.Step(HillOf(w, squad), HillEvent(w, request)), w.nextRoom,
                SquadWorld.Step(w, request).nextRoom);
    }
  }

  lemma SeatedInv(h: Hill, before: RoomId, after: RoomId)
    requires Inv(h)
    ensures Inv(Seated(h, before, after))
  {
    SeatedRoster(h, before, after);
  }

  lemma ReachableIsUnique(requests: seq<Request>)
    ensures AllUnique(SquadWorld.Run(NOTHING, requests))
  {
    forall s | s in SquadWorld.Run(NOTHING, requests).hills ensures Inv(SquadWorld.Run(NOTHING, requests).hills[s]) {
      ReachableSquads(requests, s);
    }
  }

  lemma QueuedOf(h: Hill, userId: string, p: PlayerState)
    ensures p in multiset(Holding(h.queue, userId)) <==> p in multiset(h.queue) && p.userId == userId
  {
    HoldingIs(h.queue, userId, p);
  }

  lemma {:induction false} HoldingIs(queue: seq<PlayerState>, userId: string, p: PlayerState)
    ensures p in multiset(Holding(queue, userId)) <==> p in multiset(queue) && p.userId == userId
  {
    if queue != [] {
      HoldingIs(queue[1..], userId, p);
      assert queue == [queue[0]] + queue[1..];
    }
  }

  /** The request takes this held player out of this squad: he leaves while he is queued, or the socket that his entry
      is on closes, is registered to the squad, and he is the first of the queue on it. */
  predicate Removes(w: World, request: Request, squad: SquadId, p: PlayerState) {
    squad in w.hills &&
    match request
    case LeaveSquad(s, userId, _) => s == squad && userId == p.userId && p in w.hills[squad].queue
    case Close(socketId) =>
      && InSquad(w, squad, socketId)
      && (var i := SocketIndex(w.hills[squad].queue, On(w, socketId)); i >= 0 && w.hills[squad].queue[i] == p)
    case _ => false
  }

  /** A held player is gone after a request exactly if it removes him so. */
  lemma RemovedIff(w: World, request: Request, squad: SquadId, p: PlayerState)
    requires AllUnique(w) && p in Roster(HillOf(w, squad))
    ensures p !in Roster(HillOf(SquadWorld.Step(w, request), squad)) <==> Removes(w, request, squad, p)
  {
    hide SquadWorld.Step, Roster, SocketIndex;
    SquadHoldsIff(w, request, squad, p);
    EmptyHill();
    if request.LeaveSquad? && squad in w.hills {
      QueuedOf(w.hills[squad], request.userId, p);
    }
  }

  ghost predicate EverRemoved(w: World, requests: seq<Request>, squad: SquadId, p: PlayerState)
    decreases |requests|
  {
    requests != [] &&
    (Removes(w, requests[0], squad, p) || EverRemoved(SquadWorld.Step(w, requests[0]), requests[1..], squad, p))
  }

  /** Every join makes a new entry. */
  ghost predicate NoJoinOf(requests: seq<Request>, p: PlayerState) {
    forall i :: 0 <= i < |requests| && requests[i].JoinSquad? ==> requests[i].player != p
  }

  lemma {:induction false} StaysAway(w: World, requests: seq<Request>, squad: SquadId, p: PlayerState)
    requires AllUnique(w) && p !in Roster(HillOf(w, squad)) && NoJoinOf(requests, p)
    ensures p !in Roster(HillOf(SquadWorld.Run(w, requests), squad))
    decreases |requests|
  {
    if requests != [] {
      SquadHoldsIff(w, requests[0], squad, p);
      StepKeepsAllUnique(w, requests[0]);
      assert forall i :: 0 <= i < |requests[1..]| ==> requests[1..][i] == requests[i + 1];
      StaysAway(SquadWorld.Step(w, requests[0]), requests[1..], squad, p);
    }
  }

  /** Over every run a held entry stays held exactly until a request removes it. */
  lemma {:induction false} HeldUntilRemoved(w: World, requests: seq<Request>, squad: SquadId, p: PlayerState)
    requires AllUnique(w) && p in Roster(HillOf(w, squad)) && NoJoinOf(requests, p)
    ensures p in Roster(HillOf(SquadWorld.Run(w, requests), squad)) <==> !EverRemoved(w, requests, squad, p)
    decreases |requests|
  {
    if requests != [] {
      var next, rest := SquadWorld.Step(w, requests[0]), requests[1..];
      RemovedIff(w, requests[0], squad, p);
      StepKeepsAllUnique(w, requests[0]);
      assert forall i :: 0 <= i < |rest| ==> rest[i] == requests[i + 1];
      if Removes(w, requests[0], squad, p) {
        StaysAway(next, rest, squad, p);
      } else {
        HeldUntilRemoved(next, rest, squad, p);
      }
    }
  }
}
