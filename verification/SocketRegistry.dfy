/** Which requests lose the way from a socket to the squad that holds its player. */
module SocketRegistry {
  import opened Wrappers
  import opened Players
  import opened KingOfTheHill
  import opened SquadWorld
  import opened Disconnects

  predicate Reached(w: World, squad: SquadId, p: PlayerState) {
    p in w.sockets && InSquad(w, squad, w.sockets[p])
  }

  /** Every held player's socket is registered to his squad. */
  ghost predicate Registered(w: World) {
    forall s, p :: s in w.hills && p in Roster(w.hills[s]) ==> Reached(w, s, p)
  }

  /** The squad that the socket is registered to holds somebody on it. */
  ghost predicate InUse(w: World, socketId: string) {
    && socketId in w.socketToSquad && w.socketToSquad[socketId] in w.hills
    && HeldOn(Roster(w.hills[w.socketToSquad[socketId]]), On(w, socketId))
  }

  /** The leave takes this player out. */
  predicate Leaves(w: World, squad: SquadId, userId: string, socketId: string, p: PlayerState) {
    InSquad(w, squad, socketId) && squad in w.hills && p.userId == userId && p in w.hills[squad].queue
  }

  /** A socket in use in one squad joins another; a leave over a socket on which somebody stays; a close that leaves
      somebody behind; or a player is moved to a socket that is not registered to his squad. */
  ghost predicate Breaks(w: World, request: Request) {
    match request
    case JoinSquad(squad, player, socketId) =>
      !Taking(w, squad, player.userId) && InUse(w, socketId) && w.socketToSquad[socketId] != squad
    case LeaveSquad(squad, userId, socketId) =>
      && squad in w.hills && socketId in w.socketToSquad && w.socketToSquad[socketId] in w.hills
      && exists p :: p in Roster(w.hills[w.socketToSquad[socketId]]) && p in On(w, socketId)
                     && !Leaves(w, squad, userId, socketId, p)
    case Close(socketId) =>
      && socketId in w.socketToSquad && w.socketToSquad[socketId] in w.hills
      && StaysBehind(w.hills[w.socketToSquad[socketId]], On(w, socketId))
    case Reconnect(room, userId, socketId) =>
      && Moved(w, room, userId).Some?
      && exists s :: s in w.hills && Moved(w, room, userId).value in Roster(w.hills[s]) && !InSquad(w, s, socketId)
    case _ => false
  }

  lemma RegistryAfter(w: World, request: Request)
    ensures
      SquadWorld.Step(w, request).socketToSquad ==
        match request
        case JoinSquad(squad, player, socketId) =>
          if Taking(w, squad, player.userId) then w.socketToSquad else w.socketToSquad[socketId := squad]
        case LeaveSquad(squad, userId, socketId) =>
          if squad in w.hills then w.socketToSquad - {socketId} else w.socketToSquad
        case Close(socketId) => w.socketToSquad - {socketId}
        case _ => w.socketToSquad
  {
    match request
    case Close(socketId) =>
      if socketId in w.socketToSquad { DropKeepsSockets(w, w.socketToSquad[socketId], On(w, socketId)); }
    case Notice(room, winnerId) =>
      if IsCurrent(w, room) { EndKeepsSockets(w, SquadOf(w, room), winnerId); }
    case _ =>
  }

  /** Registered in terms of who is held after the request. */
  lemma RegisteredAfterIff(w: World, request: Request)
    ensures Registered(SquadWorld.Step(w, request)) <==>
      forall s, p :: p in Roster(HillOf(SquadWorld.Step(w, request), s)) ==> Reached(SquadWorld.Step(w, request), s, p)
  {
    hide SquadWorld.Step, Reached, Roster;
    EmptyHill();
  }

  lemma HeldIsReached(w: World, squad: SquadId, p: PlayerState)
    requires Registered(w) && p in Roster(HillOf(w, squad))
    ensures squad in w.hills && Reached(w, squad, p)
  {
    EmptyHill();
  }

  lemma OnSocketInUse(w: World, s: SquadId, p: PlayerState)
    requires s in w.hills && p in Roster(w.hills[s]) && Reached(w, s, p)
    ensures InUse(w, w.sockets[p]) && w.socketToSquad[w.sockets[p]] == s
  {
    assert p in On(w, w.sockets[p]);
  }

  lemma InOn(w: World, p: PlayerState)
    ensures p in w.sockets ==> p in On(w, w.sockets[p])
  {
  }

  /** Who is held after a join. */
  lemma JoinHoldsIff(w: World, request: Request, s: SquadId, p: PlayerState)
    requires AllUnique(w) && request.JoinSquad?
    ensures p in Roster(HillOf(SquadWorld.Step(w, request), s)) <==>
      || p in Roster(HillOf(w, s))
      || (s == request.squad && p == request.player && !Taking(w, request.squad, p.userId))
  {
    hide SquadWorld.Step, Roster, KingOfTheHill.Step;
    SquadHoldsIff(w, request, s, p);
  }

  lemma JoinReaches(w: World, request: Request, s: SquadId, p: PlayerState)
    requires AllUnique(w) && Registered(w) && request.JoinSquad? && request.player !in w.sockets && !Breaks(w, request)
    requires p in Roster(HillOf(SquadWorld.Step(w, request), s))
    ensures Reached(SquadWorld.Step(w, request), s, p)
  {
    hide SquadWorld.Step, Roster, HeldOn, InUse, On, Taking, HillOf, Registered, AllUnique;
    RegistryAfter(w, request);
    StepOfSockets(w, request);
    JoinHoldsIff(w, request, s, p);
    if p in Roster(HillOf(w, s)) {
      HeldIsReached(w, s, p);
      HeldInHill(w, s, p);
      OnSocketInUse(w, s, p);
    }
  }

  lemma HeldInHill(w: World, s: SquadId, p: PlayerState)
    requires s in w.hills && p in Roster(HillOf(w, s))
    ensures p in Roster(w.hills[s])
  {
  }

  lemma JoinBreaks(w: World, request: Request) returns (s: SquadId, p: PlayerState)
    requires AllUnique(w) && Registered(w) && request.JoinSquad? && request.player !in w.sockets && Breaks(w, request)
    ensures p in Roster(HillOf(SquadWorld.Step(w, request), s)) && !Reached(SquadWorld.Step(w, request), s, p)
  {
    hide SquadWorld.Step, Roster;
    s := w.socketToSquad[request.socketId];
    p :| p in Roster(w.hills[s]) && p in On(w, request.socketId);
    RegistryAfter(w, request);
    StepOfSockets(w, request);
    SquadHoldsIff(w, request, s, p);
  }

  lemma LeaveReaches(w: World, request: Request, s: SquadId, p: PlayerState)
    requires AllUnique(w) && Registered(w) && request.LeaveSquad? && !Breaks(w, request)
    requires p in Roster(HillOf(SquadWorld.Step(w, request), s))
    ensures Reached(SquadWorld.Step(w, request), s, p)
  {
    hide SquadWorld.Step, Roster;
    RegistryAfter(w, request);
    StepOfSockets(w, request);
    StayedThere(w, request, s, p);
    RemovedIff(w, request, s, p);
    HeldIsReached(w, s, p);
    assert w.sockets[p] == request.socketId ==> p in On(w, request.socketId);
  }

  /** Only a join brings somebody in. */
  lemma StayedThere(w: World, request: Request, s: SquadId, p: PlayerState)
    requires AllUnique(w) && !request.JoinSquad? && p in Roster(HillOf(SquadWorld.Step(w, request), s))
    ensures p in Roster(HillOf(w, s))
  {
    hide SquadWorld.Step, Roster;
    SquadHoldsIff(w, request, s, p);
  }

  lemma LeaveBreaks(w: World, request: Request) returns (s: SquadId, p: PlayerState)
    requires AllUnique(w) && Registered(w) && request.LeaveSquad? && Breaks(w, request)
    ensures p in Roster(HillOf(SquadWorld.Step(w, request), s)) && !Reached(SquadWorld.Step(w, request), s, p)
  {
    hide SquadWorld.Step, Roster;
    s := w.socketToSquad[request.socketId];
    p :| p in Roster(w.hills[s]) && p in On(w, request.socketId)
         && !Leaves(w, request.squad, request.userId, request.socketId, p);
    RegistryAfter(w, request);
    StepOfSockets(w, request);
    RemovedIff(w, request, s, p);
  }

  lemma CloseReaches(w: World, request: Request, s: SquadId, p: PlayerState)
    requires AllUnique(w) && Registered(w) && request.Close? && !Breaks(w, request)
    requires p in Roster(HillOf(SquadWorld.Step(w, request), s))
    ensures Reached(SquadWorld.Step(w, request), s, p)
  {
    hide SquadWorld.Step, Roster, StaysBehind, CloseSocket;
    RegistryAfter(w, request);
    StepOfSockets(w, request);
    StepIsClose(w, request.socketId);
    StayedThere(w, request, s, p);
    HeldIsReached(w, s, p);
    SquadStillHoldsIff(w, request.socketId, s);
    InOn(w, p);
  }

  lemma CloseBreaks(w: World, request: Request) returns (s: SquadId, p: PlayerState)
    requires AllUnique(w) && Registered(w) && request.Close? && Breaks(w, request)
    ensures p in Roster(HillOf(SquadWorld.Step(w, request), s)) && !Reached(SquadWorld.Step(w, request), s, p)
  {
    hide SquadWorld.Step, Roster, StaysBehind, CloseSocket;
    s := w.socketToSquad[request.socketId];
    RegistryAfter(w, request);
    StepOfSockets(w, request);
    StepIsClose(w, request.socketId);
    SquadStillHoldsIff(w, request.socketId, s);
    p :| p in Roster(SquadWorld.Step(w, request).hills[s]) && p in On(w, request.socketId);
  }

  lemma StepIsClose(w: World, socketId: string)
    ensures SquadWorld.Step(w, Close(socketId)) == CloseSocket(w, socketId)
  {
  }

  lemma ReconnectRegistersIff(w: World, room: RoomId, userId: string, socketId: string)
    requires Registered(w)
    ensures
      var request := Reconnect(room, userId, socketId);
      Registered(SquadWorld.Step(w, request)) <==> !Breaks(w, request)
  {
    hide Roster;
    var request := Reconnect(room, userId, socketId);
    var w' := SquadWorld.Step(w, request);
    if Breaks(w, request) {
      var p := Moved(w, room, userId).value;
      var s :| s in w.hills && p in Roster(w.hills[s]) && !InSquad(w, s, socketId);
      assert p in Roster(w'.hills[s]) && !Reached(w', s, p);
    } else {
      forall s, p | s in w'.hills && p in Roster(w'.hills[s]) ensures Reached(w', s, p) {
        assert Reached(w, s, p);
      }
    }
  }

  lemma OthersReach(w: World, request: Request, s: SquadId, p: PlayerState)
    requires AllUnique(w) && Registered(w) && (request.Notice? || request.OtherRoom?)
    requires p in Roster(HillOf(SquadWorld.Step(w, request), s))
    ensures Reached(SquadWorld.Step(w, request), s, p)
  {
    hide SquadWorld.Step, Roster;
    RegistryAfter(w, request);
    StepOfSockets(w, request);
    StayedThere(w, request, s, p);
    HeldIsReached(w, s, p);
  }

  /** From a world in which every held player can be reached, exactly these requests lead to one in which somebody
      cannot; a join brings a new entry. */
  lemma RegisteredIff(w: World, request: Request)
    requires AllUnique(w) && Registered(w) && (request.JoinSquad? ==> request.player !in w.sockets)
    ensures Registered(SquadWorld.Step(w, request)) <==> !Breaks(w, request)
  {
    hide SquadWorld.Step, Roster, Reached, Breaks;
    if request.Reconnect? {
      ReconnectRegistersIff(w, request.room, request.userId, request.socketId);
    } else {
      RegisteredAfterIff(w, request);
      if Breaks(w, request) {
        if request.Notice? || request.OtherRoom? { NoticeBreaksNothing(w, request); }
        var s, p;
        if request.JoinSquad? {
          s, p := JoinBreaks(w, request);
        } else if request.LeaveSquad? {
          s, p := LeaveBreaks(w, request);
        } else {
          s, p := CloseBreaks(w, request);
        }
      } else {
        var w' := SquadWorld.Step(w, request);
        forall s, p | p in Roster(HillOf(w', s)) ensures Reached(w', s, p) {
          if request.JoinSquad? {
            JoinReaches(w, request, s, p);
          } else if request.LeaveSquad? {
            LeaveReaches(w, request, s, p);
          } else if request.Close? {
            CloseReaches(w, request, s, p);
          } else {
            OthersReach(w, request, s, p);
          }
        }
      }
    }
  }

  lemma NoticeBreaksNothing(w: World, request: Request)
    requires request.Notice? || request.OtherRoom?
    ensures !Breaks(w, request)
  {
  }

  /** A player in a slot who sends a leave stays there, and the close of his socket after that is no forfeit. */
  lemma LeavingAvoidsForfeit(w: World, squad: SquadId, p: PlayerState, socketId: string)
    requires squad in w.hills && InSlot(w.hills[squad], p.userId) && !Queued(w.hills[squad], p.userId)
    ensures
      var left := SquadWorld.Step(w, LeaveSquad(squad, p.userId, socketId));
      left.hills == w.hills && SquadWorld.Step(left, Close(socketId)) == left
  {
    NobodyLeaves(w.hills[squad].queue, p.userId);
  }

  lemma {:induction false} NobodyLeaves(queue: seq<PlayerState>, userId: string)
    requires forall i :: 0 <= i < |queue| ==> queue[i].userId != userId
    ensures Without(queue, userId) == queue
  {
    if queue != [] {
      NobodyLeaves(queue[1..], userId);
    }
  }
}
