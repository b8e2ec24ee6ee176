/** Players that stay in a squad after their socket has closed: for how long, and in which runs. */
module StrandedEntries {
  import opened Wrappers
  import opened Players
  import opened KingOfTheHill
  import opened SquadWorld
  import opened Disconnects
  import opened SocketRegistry

  // ---------------------------------------------------------------------------------------------
  // A forgotten socket
  // ---------------------------------------------------------------------------------------------

  ghost predicate NoJoinFrom(requests: seq<Request>, socketId: string) {
    forall i :: 0 <= i < |requests| && requests[i].JoinSquad? ==> requests[i].socketId != socketId
  }

  ghost predicate NoLeaveOf(requests: seq<Request>, squad: SquadId, userId: string) {
    forall i :: 0 <= i < |requests| && requests[i].LeaveSquad? ==>
      requests[i].squad != squad || requests[i].userId != userId
  }

  ghost predicate NoReconnectOf(requests: seq<Request>, userId: string) {
    forall i :: 0 <= i < |requests| && requests[i].Reconnect? ==> requests[i].userId != userId
  }

  lemma StepForgets(w: World, request: Request, socketId: string)
    requires socketId !in w.socketToSquad && (request.JoinSquad? ==> request.socketId != socketId)
    ensures socketId !in SquadWorld.Step(w, request).socketToSquad
  {
    RegistryAfter(w, request);
  }

  /** Closing the socket again does nothing. */
  lemma {:induction false} ClosedStaysForgotten(w: World, requests: seq<Request>, socketId: string)
    requires socketId !in w.socketToSquad && NoJoinFrom(requests, socketId)
    ensures socketId !in SquadWorld.Run(w, requests).socketToSquad
    ensures SquadWorld.Step(SquadWorld.Run(w, requests), Close(socketId)) == SquadWorld.Run(w, requests)
    decreases |requests|
  {
    if requests != [] {
      StepForgets(w, requests[0], socketId);
      assert forall i :: 0 <= i < |requests[1..]| ==> requests[1..][i] == requests[i + 1];
      ClosedStaysForgotten(SquadWorld.Step(w, requests[0]), requests[1..], socketId);
    }
  }

  /** The player's socket is forgotten, so no close can reach his entry. */
  predicate Unreachable(w: World, p: PlayerState) {
    p in w.sockets && w.sockets[p] !in w.socketToSquad
  }

  lemma StepKeepsUnreachable(w: World, request: Request, p: PlayerState)
    requires Unreachable(w, p)
    requires request.JoinSquad? ==> request.socketId != w.sockets[p] && request.player != p
    requires request.Reconnect? ==> request.userId != p.userId
    ensures Unreachable(SquadWorld.Step(w, request), p) && SquadWorld.Step(w, request).sockets[p] == w.sockets[p]
  {
    hide SquadWorld.Step;
    StepOfSockets(w, request);
    RegistryAfter(w, request);
  }

  lemma UnreachableIsNotRemoved(w: World, request: Request, squad: SquadId, p: PlayerState)
    requires Unreachable(w, p) && (request.LeaveSquad? ==> request.squad != squad || request.userId != p.userId)
    ensures !Removes(w, request, squad, p)
  {
  }

  lemma {:induction false} UnreachableIsNeverRemoved(w: World, requests: seq<Request>, squad: SquadId, p: PlayerState)
    requires Unreachable(w, p) && NoJoinOf(requests, p) && NoJoinFrom(requests, w.sockets[p])
    requires NoLeaveOf(requests, squad, p.userId) && NoReconnectOf(requests, p.userId)
    ensures !EverRemoved(w, requests, squad, p)
    decreases |requests|
  {
    if requests != [] {
      var rest := requests[1..];
      assert forall i :: 0 <= i < |rest| ==> rest[i] == requests[i + 1];
      StepKeepsUnreachable(w, requests[0], p);
      UnreachableIsNotRemoved(w, requests[0], squad, p);
      UnreachableIsNeverRemoved(SquadWorld.Step(w, requests[0]), rest, squad, p);
    }
  }

  lemma ForfeiterIsHeld(w: World, squad: SquadId, socketId: string)
    requires squad in w.hills && InSquad(w, squad, socketId) && Forfeit(w.hills[squad], On(w, socketId))
    ensures Forfeiter(w.hills[squad], On(w, socketId)) in On(w, socketId)
    ensures Unreachable(SquadWorld.Step(w, Close(socketId)), Forfeiter(w.hills[squad], On(w, socketId)))
    ensures Forfeiter(w.hills[squad], On(w, socketId)) in Roster(HillOf(SquadWorld.Step(w, Close(socketId)), squad))
  {
    hide DropSocket, CloseSocket, SocketIndex;
    var h, closed, w' := w.hills[squad], On(w, socketId), SquadWorld.Step(w, Close(socketId));
    CloseKeepsSockets(w, socketId);
    StepIsHillStep(w, Close(socketId));
    ForfeitsConserve(h, closed);
    SeatedRoster(DropSocket(h, closed), w.nextRoom, w'.nextRoom);
    assert Forfeiter(h, closed) in Roster(h);
  }

  /** The player who forfeits by closing his socket stays in the squad, whatever follows, until he leaves himself or is
      moved to another socket by a reconnect. */
  lemma ForfeiterStays(w: World, requests: seq<Request>, squad: SquadId, socketId: string)
    requires AllUnique(w) && squad in w.hills && InSquad(w, squad, socketId)
    requires Forfeit(w.hills[squad], On(w, socketId))
    requires NoJoinFrom(requests, socketId) && NoJoinOf(requests, Forfeiter(w.hills[squad], On(w, socketId)))
    requires NoLeaveOf(requests, squad, Forfeiter(w.hills[squad], On(w, socketId)).userId)
    requires NoReconnectOf(requests, Forfeiter(w.hills[squad], On(w, socketId)).userId)
    ensures
      var w' := SquadWorld.Run(SquadWorld.Step(w, Close(socketId)), requests);
      Forfeiter(w.hills[squad], On(w, socketId)) in Roster(HillOf(w', squad))
  {
    hide SquadWorld.Step, SquadWorld.Run, Roster, SocketIndex;
    var p, w1 := Forfeiter(w.hills[squad], On(w, socketId)), SquadWorld.Step(w, Close(socketId));
    ForfeiterIsHeld(w, squad, socketId);
    StepOfSockets(w, Close(socketId));
    StepKeepsAllUnique(w, Close(socketId));
    UnreachableIsNeverRemoved(w1, requests, squad, p);
    HeldUntilRemoved(w1, requests, squad, p);
  }

  // ---------------------------------------------------------------------------------------------
  // Concrete runs
  // ---------------------------------------------------------------------------------------------

  lemma RunCons(w: World, request: Request, rest: seq<Request>)
    ensures SquadWorld.Run(w, [request] + rest) == SquadWorld.Run(SquadWorld.Step(w, request), rest)
  {
    assert ([request] + rest)[1..] == rest;
  }

  lemma RunOfTwo(w: World, a: Request, b: Request)
    ensures SquadWorld.Run(w, [a, b]) == SquadWorld.Step(SquadWorld.Step(w, a), b)
  {
    RunCons(w, a, [b]);
    RunCons(SquadWorld.Step(w, a), b, []);
    assert [a, b] == [a] + [b] && [b] == [b] + [];
  }

  function Waiting(p: PlayerState): Hill {
    Hill(None, None, [p], None, false)
  }

  lemma FirstJoins(w: World, squad: SquadId, p: PlayerState, socketId: string)
    requires HillOf(w, squad) == EMPTY
    ensures SquadWorld.Step(w, JoinSquad(squad, p, socketId)) ==
      w.(hills := w.hills[squad := Waiting(p)], socketToSquad := w.socketToSquad[socketId := squad],
         sockets := w.sockets[p := socketId])
  {
    assert EMPTY.queue + [p] == [p];
  }

  lemma WaitsAlone(w: World, squad: SquadId, p: PlayerState, socketId: string)
    requires squad in w.hills && w.hills[squad] == Waiting(p) && p in w.sockets && w.sockets[p] == socketId
    requires !InSquad(w, squad, socketId)
    ensures !StaysBehind(w.hills[squad], On(w, socketId))
    ensures squad in CloseSocket(w, socketId).hills
    ensures HeldOn(Roster(CloseSocket(w, socketId).hills[squad]), On(w, socketId))
  {
    SquadStillHoldsIff(w, socketId, squad);
    assert w.hills[squad].queue[0] in On(w, socketId);
    HeldIff(w.hills[squad], On(w, socketId));
  }

  /** A socket that joins two squads: the close reaches the second one only, and the one entry in the first stays. */
  lemma SecondSquadKeepsFirst(a: SquadId, b: SquadId, p: PlayerState, q: PlayerState, socketId: string)
    requires a != b && p != q
    ensures
      var w := SquadWorld.Run(NOTHING, [JoinSquad(a, p, socketId), JoinSquad(b, q, socketId)]);
      && a in w.hills && !StaysBehind(w.hills[a], On(w, socketId))
      && a in CloseSocket(w, socketId).hills && HeldOn(Roster(CloseSocket(w, socketId).hills[a]), On(w, socketId))
  {
    RunOfTwo(NOTHING, JoinSquad(a, p, socketId), JoinSquad(b, q, socketId));
    FirstJoins(NOTHING, a, p, socketId);
    var w1 := SquadWorld.Step(NOTHING, JoinSquad(a, p, socketId));
    FirstJoins(w1, b, q, socketId);
    WaitsAlone(SquadWorld.Step(w1, JoinSquad(b, q, socketId)), a, p, socketId);
  }

  lemma StrangerLeaves(w: World, squad: SquadId, q: PlayerState, userId: string, socketId: string)
    requires squad in w.hills && w.hills[squad] == Waiting(q) && q.userId != userId
    ensures SquadWorld.Step(w, LeaveSquad(squad, userId, socketId)) == w.(socketToSquad := w.socketToSquad - {socketId})
  {
    assert Without([q], userId) == [q];
    assert w.hills[squad := w.hills[squad]] == w.hills;
  }

  /** A leave of another squad, even of one the user is not in, makes the gateway forget the socket. */
  lemma ForeignLeaveKeepsEntry(a: SquadId, b: SquadId, p: PlayerState, q: PlayerState, socketId: string, other: string)
    requires a != b && p != q && p.userId != q.userId
    ensures
      var w := SquadWorld.Step(SquadWorld.Run(NOTHING, [JoinSquad(b, q, other), JoinSquad(a, p, socketId)]),
                               LeaveSquad(b, p.userId, socketId));
      && a in w.hills && !StaysBehind(w.hills[a], On(w, socketId))
      && a in CloseSocket(w, socketId).hills && HeldOn(Roster(CloseSocket(w, socketId).hills[a]), On(w, socketId))
  {
    RunOfTwo(NOTHING, JoinSquad(b, q, other), JoinSquad(a, p, socketId));
    FirstJoins(NOTHING, b, q, other);
    var w1 := SquadWorld.Step(NOTHING, JoinSquad(b, q, other));
    FirstJoins(w1, a, p, socketId);
    var w2 := SquadWorld.Step(w1, JoinSquad(a, p, socketId));
    StrangerLeaves(w2, b, q, p.userId, socketId);
    WaitsAlone(SquadWorld.Step(w2, LeaveSquad(b, p.userId, socketId)), a, p, socketId);
  }

  /** A queued player whom a reconnect moves to a socket that is registered to his squad, and on which nobody else
      waits, is removed when that socket closes, although he never left. */
  lemma ReconnectLetsRemove(w: World, squad: SquadId, p: PlayerState, room: RoomId, socketId: string)
    requires AllUnique(w) && squad in w.hills && p in w.hills[squad].queue && InSquad(w, squad, socketId)
    requires Moved(w, room, p.userId) == Some(p)
    requires forall i :: 0 <= i < |w.hills[squad].queue| && w.hills[squad].queue[i] in On(w, socketId) ==>
      w.hills[squad].queue[i] == p
    ensures
      var w1 := SquadWorld.Step(w, Reconnect(room, p.userId, socketId));
      && p in Roster(HillOf(w1, squad))
      && p !in Roster(HillOf(SquadWorld.Step(w1, Close(socketId)), squad))
  {
    hide SquadWorld.Step, Roster, SocketIndex;
    var w1 := SquadWorld.Step(w, Reconnect(room, p.userId, socketId));
    ReconnectMoves(w, room, p.userId, socketId);
    HeldInQueue(w.hills[squad], p);
    FirstOnSocket(w.hills[squad].queue, On(w1, socketId), p);
    RemovedIff(w1, Close(socketId), squad, p);
  }

  lemma ReconnectMoves(w: World, room: RoomId, userId: string, socketId: string)
    requires Moved(w, room, userId).Some?
    ensures
      var p := Moved(w, room, userId).value;
      SquadWorld.Step(w, Reconnect(room, userId, socketId)) == w.(sockets := w.sockets[p := socketId]) &&
      On(w.(sockets := w.sockets[p := socketId]), socketId) == On(w, socketId) + {p}
  {
  }

  lemma HeldInQueue(h: Hill, p: PlayerState)
    requires p in h.queue
    ensures p in Roster(h)
  {
    assert p in multiset(h.queue);
  }

  lemma FirstOnSocket(queue: seq<PlayerState>, closed: set<PlayerState>, p: PlayerState)
    requires p in queue && p in closed && forall i :: 0 <= i < |queue| && queue[i] in closed ==> queue[i] == p
    ensures SocketIndex(queue, closed) >= 0 && queue[SocketIndex(queue, closed)] == p
  {
  }

  // The single steps of the runs

  lemma FirstLeaves(w: World, squad: SquadId, p: PlayerState, socketId: string)
    requires squad in w.hills && w.hills[squad] == Waiting(p)
    ensures SquadWorld.Step(w, LeaveSquad(squad, p.userId, socketId)) ==
      w.(hills := w.hills[squad := EMPTY], socketToSquad := w.socketToSquad - {socketId})
  {
    assert Without([p], p.userId) == [];
  }

  function Playing(a: PlayerState, b: PlayerState, queue: seq<PlayerState>, room: RoomId): Hill {
    Hill(Some(a), Some(b), queue, Some(room), true)
  }

  lemma SecondJoins(w: World, squad: SquadId, a: PlayerState, b: PlayerState, socketId: string)
    requires squad in w.hills && w.hills[squad] == Waiting(a) && a.userId != b.userId
    ensures SquadWorld.Step(w, JoinSquad(squad, b, socketId)) ==
      World(w.hills[squad := Playing(a, b, [], w.nextRoom)], w.rooms[w.nextRoom := Pairing(a, b)], w.nextRoom + 1,
            w.socketToSquad[socketId := squad], w.sockets[b := socketId])
  {
    assert [a] + [b] == [a, b] && [a, b][2..] == [];
  }

  lemma ThirdJoins(w: World, squad: SquadId, a: PlayerState, b: PlayerState, room: RoomId, c: PlayerState,
                   socketId: string)
    requires squad in w.hills && w.hills[squad] == Playing(a, b, [], room)
    requires a.userId != c.userId && b.userId != c.userId
    ensures SquadWorld.Step(w, JoinSquad(squad, c, socketId)) ==
      w.(hills := w.hills[squad := Playing(a, b, [c], room)], socketToSquad := w.socketToSquad[socketId := squad],
         sockets := w.sockets[c := socketId])
  {
    assert w.hills[squad].queue + [c] == [c];
  }

  lemma ChallengerCloses(w: World, squad: SquadId, a: PlayerState, b: PlayerState, room: RoomId, c: PlayerState,
                         socketId: string)
    requires squad in w.hills && w.hills[squad] == Playing(a, b, [c], room) && InSquad(w, squad, socketId)
    requires a.userId != b.userId && a !in On(w, socketId) && b in On(w, socketId) && c !in On(w, socketId)
    ensures SquadWorld.Step(w, Close(socketId)) ==
      World(w.hills[squad := Playing(a, c, [b], w.nextRoom)], w.rooms[w.nextRoom := Pairing(a, c)], w.nextRoom + 1,
            w.socketToSquad - {socketId}, w.sockets)
  {
    var h := w.hills[squad];
    assert ([c] + [b])[0] == c && ([c] + [b])[1..] == [b];
    assert Rotate(h, Some(a.userId)) == Hill(Some(a), None, [c] + [b], None, false);
    assert EndMatch(h, Some(a.userId)) == Hill(Some(a), Some(c), [b], None, true);
  }

  /** A user joins, leaves from a second tab, and joins again from that tab; he plays A, C joins, and the tab closes.
      The forfeiter waits behind C.  He reconnects to the room he forfeited from the first tab, whose socket is still
      registered, and when this one closes he is removed, although he did not leave since his last join. */
  function Comeback(squad: SquadId, first: PlayerState, p: PlayerState, a: PlayerState, c: PlayerState): seq<Request> {
    [JoinSquad(squad, first, "tab 1"), LeaveSquad(squad, p.userId, "tab 2"), JoinSquad(squad, a, "a"),
     JoinSquad(squad, p, "tab 2"), JoinSquad(squad, c, "c"), Close("tab 2"), Reconnect(0, p.userId, "tab 1"),
     Close("tab 1")]
  }

  lemma ForfeiterComesBack(squad: SquadId, first: PlayerState, p: PlayerState, a: PlayerState, c: PlayerState)
    requires first != p && first.userId == p.userId
    requires p.userId != a.userId && p.userId != c.userId && a.userId != c.userId
    ensures
      var requests := Comeback(squad, first, p, a, c);
      && p in Roster(HillOf(SquadWorld.Run(NOTHING, requests[..7]), squad))
      && p !in Roster(HillOf(SquadWorld.Run(NOTHING, requests), squad))
  {
    hide SquadWorld.Step, SquadWorld.Run, Roster, SocketIndex;
    var requests := Comeback(squad, first, p, a, c);
    var w6 := ComebackQueued(squad, first, p, a, c);
    ReachableIsUnique(requests[..6]);
    ReconnectLetsRemove(w6, squad, p, 0, "tab 1");
    RunOfPrefix(NOTHING, requests, 6);
    RunOfPrefix(NOTHING, requests, 7);
    assert requests[..8] == requests;
  }

  /** The first six requests of the run. */
  lemma ComebackQueued(squad: SquadId, first: PlayerState, p: PlayerState, a: PlayerState, c: PlayerState)
    returns (w: World)
    requires first != p && first.userId == p.userId
    requires p.userId != a.userId && p.userId != c.userId && a.userId != c.userId
    ensures w == SquadWorld.Run(NOTHING, Comeback(squad, first, p, a, c)[..6])
    ensures squad in w.hills && w.hills[squad].queue == [p] && InSquad(w, squad, "tab 1")
    ensures 0 in w.rooms && w.rooms[0] == Pairing(a, p) && p in w.sockets
  {
    hide SquadWorld.Step;
    var requests := Comeback(squad, first, p, a, c);
    var w1 := SquadWorld.Step(NOTHING, requests[0]);
    FirstJoins(NOTHING, squad, first, "tab 1");
    var w2 := SquadWorld.Step(w1, requests[1]);
    FirstLeaves(w1, squad, first, "tab 2");
    var w3 := SquadWorld.Step(w2, requests[2]);
    FirstJoins(w2, squad, a, "a");
    var w4 := SquadWorld.Step(w3, requests[3]);
    SecondJoins(w3, squad, a, p, "tab 2");
    var w5 := SquadWorld.Step(w4, requests[4]);
    ThirdJoins(w4, squad, a, p, 0, c, "c");
    TabsDiffer();
    ChallengerCloses(w5, squad, a, p, 0, c, "tab 2");
    w := SquadWorld.Step(w5, requests[5]);
    RunOfSix(NOTHING, requests);
  }

  lemma RunOfSix(w: World, requests: seq<Request>)
    requires |requests| >= 6
    ensures SquadWorld.Run(w, requests[..6]) ==
      SquadWorld.Step(SquadWorld.Step(SquadWorld.Step(SquadWorld.Step(SquadWorld.Step(SquadWorld.Step(
        w, requests[0]), requests[1]), requests[2]), requests[3]), requests[4]), requests[5])
  {
    hide SquadWorld.Step;
    assert requests[..0] == [];
    RunOfPrefix(w, requests, 0);
    RunOfPrefix(w, requests, 1);
    RunOfPrefix(w, requests, 2);
    RunOfPrefix(w, requests, 3);
    RunOfPrefix(w, requests, 4);
    RunOfPrefix(w, requests, 5);
  }

  lemma TabsDiffer()
    ensures "tab 1" != "tab 2" && "a" != "c" && "a" !in {"tab 1", "tab 2"} && "c" !in {"tab 1", "tab 2"}
  {
    assert "tab 1"[4] != "tab 2"[4];
    assert "a"[0] != "c"[0];
  }

  lemma {:induction false} RunOfPrefix(w: World, requests: seq<Request>, k: nat)
    requires k < |requests|
    ensures SquadWorld.Run(w, requests[..k + 1]) == SquadWorld.Step(SquadWorld.Run(w, requests[..k]), requests[k])
    decreases k
  {
    if k == 0 {
      assert requests[..1] == [requests[0]] + [];
      RunCons(w, requests[0], []);
    } else {
      var rest := requests[1..];
      assert requests[..k + 1] == [requests[0]] + rest[..k] && requests[..k] == [requests[0]] + rest[..k - 1];
      RunCons(w, requests[0], rest[..k]);
      RunCons(w, requests[0], rest[..k - 1]);
      RunOfPrefix(SquadWorld.Step(w, requests[0]), rest, k - 1);
    }
  }
}
