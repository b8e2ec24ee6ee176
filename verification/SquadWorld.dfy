/** All squads of the gateway together with the rooms the game service made for them.  Room creation is one step
    here, so the current room of every squad is defined between events. */
module SquadWorld {
  import opened Wrappers
  import opened Lists
  import opened Players
  import opened KingOfTheHill

  /** `sockets` holds the socket field of every queue entry that was made. */
  datatype World = World(
    hills: map<SquadId, Hill>, rooms: map<RoomId, Pairing>, nextRoom: RoomId, socketToSquad: map<string, SquadId>,
    sockets: map<PlayerState, string>)

  const NOTHING := World(map[], map[], 0, map[], map[])

  /** `OtherRoom` is a room made by matchmaking or an invite, in the same table, and `Reconnect` is `game:reconnect`
      with the room that it finds. */
  datatype Request =
    | JoinSquad(squad: SquadId, player: PlayerState, socketId: string)
    | LeaveSquad(squad: SquadId, userId: string, socketId: string)
    | Close(socketId: string)
    | Notice(room: RoomId, winnerId: Option<string>)
    | OtherRoom(seats: Pairing)
    | Reconnect(room: RoomId, userId: string, socketId: string)

  function WithHill(w: World, squad: SquadId, h: Hill): World {
    w.(hills := w.hills[squad := h])
  }

  /** `tryStartMatch` and `startSquadMatch`. */
  function StartMatch(w: World, squad: SquadId): World
    requires squad in w.hills
  {
    var h := TryStart(w.hills[squad]);
    if !Starts(w.hills[squad]) then w
    else
      w.(hills := w.hills[squad := h.(room := Some(w.nextRoom))],
         rooms := w.rooms[w.nextRoom := Pairing(h.champion.value, h.challenger.value)],
         nextRoom := w.nextRoom + 1)
  }

  function EndSquadMatch(w: World, squad: SquadId, winnerId: Option<string>): World {
    if squad in w.hills && CanEnd(w.hills[squad])
    then StartMatch(WithHill(w, squad, Rotate(w.hills[squad], winnerId)), squad)
    else w
  }

  predicate Taking(w: World, squad: SquadId, userId: string) {
    squad in w.hills && (Queued(w.hills[squad], userId) || InSlot(w.hills[squad], userId))
  }

  /** A join of a squad member. */
  function Enter(w: World, squad: SquadId, player: PlayerState, socketId: string): World {
    if Taking(w, squad, player.userId) then w
    else
      var h := if squad in w.hills then w.hills[squad] else EMPTY;
      var queued := WithHill(w, squad, h.(queue := h.queue + [player]));
      StartMatch(queued.(socketToSquad := w.socketToSquad[socketId := squad], sockets := w.sockets[player := socketId]),
                 squad)
  }

  function Quit(w: World, squad: SquadId, userId: string, socketId: string): World {
    if squad !in w.hills then w
    else
      var h := w.hills[squad];
      WithHill(w, squad, h.(queue := Without(h.queue, userId))).(socketToSquad := w.socketToSquad - {socketId})
  }

  /** The entries whose socket field is this socket. */
  function On(w: World, socketId: string): set<PlayerState> {
    set p | p in w.sockets && w.sockets[p] == socketId
  }

  function ChampionForfeit(w: World, squad: SquadId, closed: set<PlayerState>): World
    requires squad in w.hills
  {
    var h := w.hills[squad];
    if ChampionForfeits(h, closed) then EndSquadMatch(w, squad, Some(h.challenger.value.userId)) else w
  }

  function ChallengerForfeit(w: World, squad: SquadId, closed: set<PlayerState>): World
    requires squad in w.hills
  {
    var h := w.hills[squad];
    if ChallengerForfeits(h, closed) then EndSquadMatch(w, squad, Some(h.champion.value.userId)) else w
  }

  function DropFrom(w: World, squad: SquadId, closed: set<PlayerState>): World {
    if squad !in w.hills then w
    else
      var h := w.hills[squad];
      var i := SocketIndex(h.queue, closed);
      if i >= 0 then WithHill(w, squad, h.(queue := RemoveAt(h.queue, i)))
      else ChallengerForfeit(ChampionForfeit(w, squad, closed), squad, closed)
  }

  function CloseSocket(w: World, socketId: string): World {
    if socketId !in w.socketToSquad then w
    else
      var after := DropFrom(w, w.socketToSquad[socketId], On(w, socketId));
      after.(socketToSquad := after.socketToSquad - {socketId})
  }

  ghost predicate IsCurrent(w: World, room: RoomId) {
    exists squad :: squad in w.hills && w.hills[squad].room == Some(room)
  }

  ghost function SquadOf(w: World, room: RoomId): (squad: SquadId)
    requires IsCurrent(w, room)
    ensures squad in w.hills && w.hills[squad].room == Some(room)
  {
    var squad :| squad in w.hills && w.hills[squad].room == Some(room);
    squad
  }

  /** `notifyMatchEnd`. */
  ghost function Notify(w: World, room: RoomId, winnerId: Option<string>): World {
    if IsCurrent(w, room) then EndSquadMatch(w, SquadOf(w, room), winnerId) else w
  }

  function AddRoom(w: World, seats: Pairing): World {
    w.(rooms := w.rooms[w.nextRoom := seats], nextRoom := w.nextRoom + 1)
  }

  /** The entry that `game:reconnect` moves to another socket, if it is one of a squad. */
  function Moved(w: World, room: RoomId, userId: string): Option<PlayerState> {
    if room !in w.rooms then None
    else
      var seats := w.rooms[room];
      if seats.player1.userId == userId && seats.player1 in w.sockets then Some(seats.player1)
      else if seats.player1.userId != userId && seats.player2.userId == userId && seats.player2 in w.sockets
      then Some(seats.player2)
      else None
  }

  function Reconnected(w: World, room: RoomId, userId: string, socketId: string): World {
    match Moved(w, room, userId)
    case None => w
    case Some(p) => w.(sockets := w.sockets[p := socketId])
  }

  /** What the end of `finalizeMatch` does to the squads: a practice match returns before the notice. */
  ghost function Finished(w: World, room: RoomId, winnerId: Option<string>): World
    requires room in w.rooms
  {
    if w.rooms[room].player1.walletVerified || w.rooms[room].player2.walletVerified
    then Notify(w, room, winnerId) else w
  }

  ghost function Step(w: World, request: Request): World {
    match request
    case JoinSquad(squad, player, socketId) => Enter(w, squad, player, socketId)
    case LeaveSquad(squad, userId, socketId) => Quit(w, squad, userId, socketId)
    case Close(socketId) => CloseSocket(w, socketId)
    case Notice(room, winnerId) => Notify(w, room, winnerId)
    case OtherRoom(seats) => AddRoom(w, seats)
    case Reconnect(room, userId, socketId) => Reconnected(w, room, userId, socketId)
  }

  ghost function Run(w: World, requests: seq<Request>): World
    decreases |requests|
  {
    if requests == [] then w else Run(Step(w, requests[0]), requests[1..])
  }

  // ---------------------------------------------------------------------------------------------
  // One squad sees a run of its hill
  // ---------------------------------------------------------------------------------------------

  ghost function HillOf(w: World, squad: SquadId): Hill {
    if squad in w.hills then w.hills[squad] else EMPTY
  }

  /** The squad a request is about, if any. */
  ghost function Subject(w: World, request: Request): Option<SquadId> {
    match request
    case JoinSquad(squad, _, _) => Some(squad)
    case LeaveSquad(squad, _, _) => if squad in w.hills then Some(squad) else None
    case Close(socketId) =>
      if socketId in w.socketToSquad && w.socketToSquad[socketId] in w.hills then Some(w.socketToSquad[socketId])
      else None
    case Notice(room, _) => if IsCurrent(w, room) then Some(SquadOf(w, room)) else None
    case _ => None
  }

  function HillEvent(w: World, request: Request): Event
    requires !request.OtherRoom? && !request.Reconnect?
  {
    match request
    case JoinSquad(_, player, _) => Join(player)
    case LeaveSquad(_, userId, _) => Leave(userId)
    case Close(socketId) => Disconnect(On(w, socketId))
    case Notice(_, winnerId) => MatchEnd(winnerId)
  }

  /** The hill after an event, with the newest room if the event started a match. */
  function Seated(h: Hill, before: RoomId, after: RoomId): Hill {
    if before < after then h.(room := Some(after - 1)) else h
  }

  lemma EndIsHillEnd(w: World, squad: SquadId, winnerId: Option<string>)
    requires squad in w.hills && CanEnd(w.hills[squad])
    ensures
      var w' := EndSquadMatch(w, squad, winnerId);
      && w'.nextRoom == w.nextRoom + 1
      && w'.hills == w.hills[squad := EndMatch(w.hills[squad], winnerId).(room := Some(w.nextRoom))]
  {
    EndRestarts(w.hills[squad], winnerId);
  }

  lemma EndIgnoresRoom(h: Hill, room: Option<RoomId>, winnerId: Option<string>)
    requires CanEnd(h)
    ensures EndMatch(h.(room := room), winnerId) == EndMatch(h, winnerId)
  {
  }

  lemma DropIsHillDrop(w: World, squad: SquadId, closed: set<PlayerState>)
    requires squad in w.hills
    ensures
      var w' := DropFrom(w, squad, closed);
      && w.nextRoom <= w'.nextRoom
      && w'.hills == w.hills[squad := Seated(DropSocket(w.hills[squad], closed), w.nextRoom, w'.nextRoom)]
  {
    hide EndMatch, EndSquadMatch, SocketIndex, RemoveAt;
    var h := w.hills[squad];
    if SocketIndex(h.queue, closed) < 0 {
      var w1 := ChampionForfeit(w, squad, closed);
      var h1 := AfterChampionForfeit(h, closed);
      if ChampionForfeits(h, closed) {
        EndIsHillEnd(w, squad, Some(h.challenger.value.userId));
      }
      if ChallengerForfeits(h1, closed) {
        EndIsHillEnd(w1, squad, Some(h1.champion.value.userId));
        EndIgnoresRoom(h1, w1.hills[squad].room, Some(h1.champion.value.userId));
      }
    }
  }

  lemma EnterIsHillJoin(w: World, squad: SquadId, player: PlayerState, socketId: string)
    ensures
      var w' := Enter(w, squad, player, socketId);
      && w.nextRoom <= w'.nextRoom
      && w'.hills == w.hills[squad := Seated(JoinQueue(HillOf(w, squad), player), w.nextRoom, w'.nextRoom)]
  {
  }

  /** A request changes one hill only, and that one by its hill event. */
  lemma StepIsHillStep(w: World, request: Request)
    ensures
      var w' := Step(w, request);
      && w.nextRoom <= w'.nextRoom
      && match Subject(w, request)
         case None => w'.hills == w.hills
         case Some(squad) =>
           var h' := Seated(KingOfTheHill.Step(HillOf(w, squad), HillEvent(w, request)), w.nextRoom, w'.nextRoom);
           w'.hills == w.hills[squad := h']
  {
    match request
    case JoinSquad(squad, player, socketId) => EnterIsHillJoin(w, squad, player, socketId);
    case LeaveSquad(squad, userId, socketId) =>
    case Close(socketId) =>
      if Subject(w, request).Some? { DropIsHillDrop(w, w.socketToSquad[socketId], On(w, socketId)); }
    case Notice(room, winnerId) =>
      if Subject(w, request).Some? && CanEnd(w.hills[SquadOf(w, room)]) { EndIsHillEnd(w, SquadOf(w, room), winnerId); }
    case _ =>
  }

  function WithRoom(ev: Event, before: RoomId, after: RoomId): seq<Event> {
    if before < after then [ev, RoomReady(after - 1)] else [ev]
  }

  /** What a request means to one squad; a started match is followed by its room. */
  ghost function HillEvents(w: World, request: Request, squad: SquadId): seq<Event> {
    if Subject(w, request) != Some(squad) then []
    else WithRoom(HillEvent(w, request), w.nextRoom, Step(w, request).nextRoom)
  }

  ghost function HillTrace(w: World, requests: seq<Request>, squad: SquadId): seq<Event>
    decreases |requests|
  {
    if requests == [] then []
    else HillEvents(w, requests[0], squad) + HillTrace(Step(w, requests[0]), requests[1..], squad)
  }

  lemma OneThenRest(h: Hill, ev: Event, rest: seq<Event>)
    ensures KingOfTheHill.Run(h, [ev] + rest) == KingOfTheHill.Run(KingOfTheHill.Step(h, ev), rest)
  {
    assert ([ev] + rest)[1..] == rest;
  }

  lemma RoomReadySeats(h: Hill, before: RoomId, after: RoomId)
    requires before < after
    ensures KingOfTheHill.Step(h, RoomReady(after - 1)) == Seated(h, before, after)
  {
  }

  lemma SeatedIsRun(h: Hill, ev: Event, before: RoomId, after: RoomId, rest: seq<Event>)
    ensures KingOfTheHill.Run(h, WithRoom(ev, before, after) + rest)
         == KingOfTheHill.Run(Seated(KingOfTheHill.Step(h, ev), before, after), rest)
  {
    hide KingOfTheHill.Step, KingOfTheHill.Run;
    if before < after {
      assert WithRoom(ev, before, after) + rest == [ev] + ([RoomReady(after - 1)] + rest);
      OneThenRest(h, ev, [RoomReady(after - 1)] + rest);
      OneThenRest(KingOfTheHill.Step(h, ev), RoomReady(after - 1), rest);
      RoomReadySeats(KingOfTheHill.Step(h, ev), before, after);
    } else {
      OneThenRest(h, ev, rest);
    }
  }

  lemma StepIsHillRun(w: World, request: Request, squad: SquadId, rest: seq<Event>)
    ensures KingOfTheHill.Run(HillOf(w, squad), HillEvents(w, request, squad) + rest)
         == KingOfTheHill.Run(HillOf(Step(w, request), squad), rest)
  {
    StepIsHillStep(w, request);
    if Subject(w, request) == Some(squad) {
      SeatedIsRun(HillOf(w, squad), HillEvent(w, request), w.nextRoom, Step(w, request).nextRoom, rest);
    } else {
      assert [] + rest == rest;
    }
  }

  /** What is proved of all hill runs holds of every squad in every reachable world. */
  lemma {:induction false} RunIsHillRun(w: World, requests: seq<Request>, squad: SquadId)
    ensures HillOf(Run(w, requests), squad) == KingOfTheHill.Run(HillOf(w, squad), HillTrace(w, requests, squad))
    decreases |requests|
  {
    if requests != [] {
      var w' := Step(w, requests[0]);
      RunIsHillRun(w', requests[1..], squad);
      StepIsHillRun(w, requests[0], squad, HillTrace(w', requests[1..], squad));
    }
  }

  // ---------------------------------------------------------------------------------------------
  // Hill and room agree
  // ---------------------------------------------------------------------------------------------

  /** A squad has a current room exactly while its match is in progress, and that room seats its champion and
      challenger in this order. */
  ghost predicate Linked(h: Hill, rooms: map<RoomId, Pairing>) {
    && Busy(h)
    && (h.room.Some? <==> h.inProgress)
    && (h.room.Some? ==> h.room.value in rooms && rooms[h.room.value] == Pairing(h.champion.value, h.challenger.value))
  }

  ghost predicate AllLinked(w: World) {
    && (forall r :: r in w.rooms ==> r < w.nextRoom)
    && (forall s :: s in w.hills ==> Linked(w.hills[s], w.rooms))
    && (forall s, t :: (s in w.hills && t in w.hills && s != t && w.hills[s].room.Some?)
          ==> w.hills[s].room != w.hills[t].room)
  }

  /** One squad moved on: it kept its room, has none, or sits in a new one. */
  ghost predicate Advances(w: World, w': World, squad: SquadId) {
    && squad in w'.hills && w'.hills == w.hills[squad := w'.hills[squad]]
    && w.nextRoom <= w'.nextRoom
    && (forall r :: r in w.rooms ==> r in w'.rooms && w'.rooms[r] == w.rooms[r])
    && (forall r :: r in w'.rooms ==> r < w'.nextRoom)
    && Linked(w'.hills[squad], w'.rooms)
    && (var room := w'.hills[squad].room;
        room == HillOf(w, squad).room || room.None? || room.value >= w.nextRoom)
  }

  /** No squad moved; there may be new rooms. */
  ghost predicate Beside(w: World, w': World) {
    && w'.hills == w.hills && w.nextRoom <= w'.nextRoom
    && (forall r :: r in w.rooms ==> r in w'.rooms && w'.rooms[r] == w.rooms[r])
    && (forall r :: r in w'.rooms ==> r < w'.nextRoom)
  }

  lemma BesideKeepsLinks(w: World, w': World)
    requires AllLinked(w) && Beside(w, w')
    ensures AllLinked(w')
  {
    forall s | s in w'.hills ensures Linked(w'.hills[s], w'.rooms) {
      assert Linked(w.hills[s], w.rooms);
    }
  }

  lemma AdvancesKeepsLinks(w: World, w': World, squad: SquadId)
    requires AllLinked(w) && Advances(w, w', squad)
    ensures AllLinked(w')
  {
    forall s | s in w'.hills && s != squad
      ensures w'.hills[s] == w.hills[s] && Linked(w'.hills[s], w'.rooms)
      ensures w'.hills[s].room.Some? ==> w'.hills[s].room != w'.hills[squad].room
    {
      assert Linked(w.hills[s], w.rooms);
    }
  }

  lemma AdvancesIsTransitive(w: World, w': World, w'': World, squad: SquadId)
    requires Advances(w, w', squad) && Advances(w', w'', squad)
    ensures Advances(w, w'', squad)
  {
    assert w''.hills == w.hills[squad := w''.hills[squad]];
  }

  lemma EndAdvances(w: World, squad: SquadId, winnerId: Option<string>)
    requires AllLinked(w) && squad in w.hills && CanEnd(w.hills[squad])
    ensures Advances(w, EndSquadMatch(w, squad, winnerId), squad)
    ensures AllLinked(EndSquadMatch(w, squad, winnerId))
    ensures EndSquadMatch(w, squad, winnerId).hills[squad].room == Some(w.nextRoom)
  {
    EndRestarts(w.hills[squad], winnerId);
    AdvancesKeepsLinks(w, EndSquadMatch(w, squad, winnerId), squad);
  }

  lemma EnterAdvances(w: World, squad: SquadId, player: PlayerState, socketId: string)
    requires AllLinked(w)
    ensures Advances(w, Enter(w, squad, player, socketId), squad)
  {
    assert squad in w.hills ==> Linked(w.hills[squad], w.rooms);
  }

  lemma ShorterQueueAdvances(w: World, squad: SquadId, queue: seq<PlayerState>, sockets: map<string, SquadId>)
    requires AllLinked(w) && squad in w.hills && |queue| <= |w.hills[squad].queue|
    ensures Advances(w, WithHill(w, squad, w.hills[squad].(queue := queue)).(socketToSquad := sockets), squad)
  {
    assert Linked(w.hills[squad], w.rooms);
  }

  lemma ForfeitsAdvance(w: World, squad: SquadId, closed: set<PlayerState>)
    requires AllLinked(w) && squad in w.hills
    ensures Advances(w, ChampionForfeit(w, squad, closed), squad) && AllLinked(ChampionForfeit(w, squad, closed))
    ensures Advances(w, ChallengerForfeit(w, squad, closed), squad)
  {
    var h := w.hills[squad];
    assert Linked(h, w.rooms);
    if ChampionForfeits(h, closed) { EndAdvances(w, squad, Some(h.challenger.value.userId)); }
    if ChallengerForfeits(h, closed) { EndAdvances(w, squad, Some(h.champion.value.userId)); }
  }

  lemma DropAdvances(w: World, squad: SquadId, closed: set<PlayerState>)
    requires AllLinked(w) && squad in w.hills
    ensures Advances(w, DropFrom(w, squad, closed), squad)
  {
    var i := SocketIndex(w.hills[squad].queue, closed);
    if i >= 0 {
      ShorterQueueAdvances(w, squad, RemoveAt(w.hills[squad].queue, i), w.socketToSquad);
    } else {
      var w1 := ChampionForfeit(w, squad, closed);
      ForfeitsAdvance(w, squad, closed);
      ForfeitsAdvance(w1, squad, closed);
      AdvancesIsTransitive(w, w1, ChallengerForfeit(w1, squad, closed), squad);
    }
  }

  lemma StepAdvances(w: World, request: Request)
    requires AllLinked(w)
    ensures match Subject(w, request)
            case None => Beside(w, Step(w, request))
            case Some(squad) => Advances(w, Step(w, request), squad)
  {
    match request
    case JoinSquad(squad, player, socketId) => EnterAdvances(w, squad, player, socketId);
    case LeaveSquad(squad, userId, socketId) =>
      if squad in w.hills {
        WithoutAndHolding(w.hills[squad].queue, userId);
        ShorterQueueAdvances(w, squad, Without(w.hills[squad].queue, userId), w.socketToSquad - {socketId});
      }
    case Close(socketId) =>
      if Subject(w, request).Some? { DropAdvances(w, w.socketToSquad[socketId], On(w, socketId)); }
    case Notice(room, winnerId) =>
      if Subject(w, request).Some? { EndCurrent(w, room, winnerId); }
    case _ =>
  }

  lemma EndCurrent(w: World, room: RoomId, winnerId: Option<string>)
    requires AllLinked(w) && IsCurrent(w, room)
    ensures CanEnd(w.hills[SquadOf(w, room)])
    ensures Advances(w, Notify(w, room, winnerId), SquadOf(w, room))
  {
    assert Linked(w.hills[SquadOf(w, room)], w.rooms);
    EndAdvances(w, SquadOf(w, room), winnerId);
  }

  lemma StepLinks(w: World, request: Request)
    requires AllLinked(w)
    ensures AllLinked(Step(w, request))
  {
    StepAdvances(w, request);
    if Subject(w, request).Some? {
      AdvancesKeepsLinks(w, Step(w, request), Subject(w, request).value);
    } else {
      BesideKeepsLinks(w, Step(w, request));
    }
  }

  /** In every reachable world each squad's current room and its match agree, and no room is current twice. */
  lemma {:induction false} RunLinks(w: World, requests: seq<Request>)
    requires AllLinked(w)
    ensures AllLinked(Run(w, requests))
    decreases |requests|
  {
    if requests != [] {
      StepLinks(w, requests[0]);
      RunLinks(Step(w, requests[0]), requests[1..]);
    }
  }

  /** Every squad of every reachable world is a hill that satisfies its invariant and is linked to its room. */
  lemma ReachableSquads(requests: seq<Request>, squad: SquadId)
    ensures AllLinked(Run(NOTHING, requests)) && Inv(HillOf(Run(NOTHING, requests), squad))
  {
    RunLinks(NOTHING, requests);
    RunIsHillRun(NOTHING, requests, squad);
    HillHoldsExactlyThoseWhoStayed(HillTrace(NOTHING, requests, squad));
  }

  // ---------------------------------------------------------------------------------------------
  // Every held player has a socket field
  // ---------------------------------------------------------------------------------------------

  ghost predicate Known(w: World) {
    forall s, p :: s in w.hills && p in Roster(w.hills[s]) ==> p in w.sockets
  }

  lemma KnownIn(w: World, squad: SquadId)
    requires Known(w) && squad in w.hills
    ensures
      var h := w.hills[squad];
      && (forall i :: 0 <= i < |h.queue| ==> h.queue[i] in w.sockets)
      && (h.champion.Some? ==> h.champion.value in w.sockets)
      && (h.challenger.Some? ==> h.challenger.value in w.sockets)
  {
    var h := w.hills[squad];
    forall i | 0 <= i < |h.queue| ensures h.queue[i] in w.sockets {
      assert h.queue[i] in multiset(h.queue);
      assert h.queue[i] in Roster(h);
    }
    if h.champion.Some? { assert h.champion.value in Roster(h); }
    if h.challenger.Some? { assert h.challenger.value in Roster(h); }
  }

  lemma SeatedRoster(h: Hill, before: RoomId, after: RoomId)
    ensures Roster(Seated(h, before, after)) == Roster(h)
  {
  }

  lemma EndKeepsSockets(w: World, squad: SquadId, winnerId: Option<string>)
    ensures EndSquadMatch(w, squad, winnerId).socketToSquad == w.socketToSquad
    ensures EndSquadMatch(w, squad, winnerId).sockets == w.sockets
    ensures squad in w.hills ==> squad in EndSquadMatch(w, squad, winnerId).hills
  {
  }

  lemma EndKeepsKnown(w: World, squad: SquadId, winnerId: Option<string>)
    requires Known(w)
    ensures Known(EndSquadMatch(w, squad, winnerId))
  {
    if squad in w.hills && CanEnd(w.hills[squad]) {
      EndIsHillEnd(w, squad, winnerId);
      EndConserves(w.hills[squad], winnerId);
    }
  }

  lemma DropKeepsSockets(w: World, squad: SquadId, closed: set<PlayerState>)
    ensures DropFrom(w, squad, closed).socketToSquad == w.socketToSquad
    ensures DropFrom(w, squad, closed).sockets == w.sockets
  {
    hide EndSquadMatch, SocketIndex, RemoveAt;
    if squad in w.hills {
      var h := w.hills[squad];
      if ChampionForfeits(h, closed) { EndKeepsSockets(w, squad, Some(h.challenger.value.userId)); }
      var w1 := ChampionForfeit(w, squad, closed);
      if ChallengerForfeits(w1.hills[squad], closed) {
        EndKeepsSockets(w1, squad, Some(w1.hills[squad].champion.value.userId));
      }
    }
  }

  /** The socket fields after a request. */
  lemma StepOfSockets(w: World, request: Request)
    ensures
      var w' := Step(w, request);
      w'.sockets ==
        match request
        case JoinSquad(squad, player, socketId) =>
          if Taking(w, squad, player.userId) then w.sockets else w.sockets[player := socketId]
        case Reconnect(room, userId, socketId) =>
          if Moved(w, room, userId).Some? then w.sockets[Moved(w, room, userId).value := socketId] else w.sockets
        case _ => w.sockets
  {
    match request
    case Close(socketId) =>
      if socketId in w.socketToSquad { DropKeepsSockets(w, w.socketToSquad[socketId], On(w, socketId)); }
    case Notice(room, winnerId) =>
      if IsCurrent(w, room) { EndKeepsSockets(w, SquadOf(w, room), winnerId); }
    case _ =>
  }

  /** A reconnect to a room moves exactly the squad entry that sits there for the user, whichever seat it has. */
  lemma ReconnectMovesIff(w: World, room: RoomId, userId: string, socketId: string, p: PlayerState)
    requires p in w.sockets
    requires room in w.rooms ==> w.rooms[room].player1.userId != w.rooms[room].player2.userId
    ensures
      var w' := Step(w, Reconnect(room, userId, socketId));
      && w' == w.(sockets := w'.sockets) && w'.sockets.Keys == w.sockets.Keys
      && w'.sockets[p] ==
           if room in w.rooms && Seats(w.rooms[room], p) && p.userId == userId then socketId else w.sockets[p]
  {
  }

  lemma HeldAfter(h: Hill, ev: Event, p: PlayerState)
    requires Busy(h) && p in Roster(KingOfTheHill.Step(h, ev))
    ensures p in Roster(h) || p in Admitted(h, ev)
  {
    hide Roster, Dismissed, Admitted, KingOfTheHill.Step;
    StepConserves(h, ev);
    assert p in Roster(KingOfTheHill.Step(h, ev)) + Dismissed(h, ev);
  }

  lemma HillIsBusy(w: World, squad: SquadId)
    requires AllLinked(w)
    ensures Busy(HillOf(w, squad))
  {
    if squad in w.hills { assert Linked(w.hills[squad], w.rooms); }
  }

  lemma StepKeepsKnown(w: World, request: Request)
    requires AllLinked(w) && Known(w)
    ensures Known(Step(w, request))
  {
    hide Step, Subject, Roster;
    StepIsHillStep(w, request);
    StepOfSockets(w, request);
    var w' := Step(w, request);
    forall s, p | s in w'.hills && p in Roster(w'.hills[s]) ensures p in w'.sockets {
      if Subject(w, request) == Some(s) {
        HeldBySubject(w, request, s, p);
      } else {
        assert w'.hills[s] == w.hills[s];
      }
    }
  }

  lemma HeldBySubject(w: World, request: Request, squad: SquadId, p: PlayerState)
    requires AllLinked(w) && Known(w) && Subject(w, request) == Some(squad)
    requires squad in Step(w, request).hills && p in Roster(Step(w, request).hills[squad])
    ensures p in Step(w, request).sockets
  {
    hide Step, Roster;
    StepIsHillStep(w, request);
    StepOfSockets(w, request);
    HillIsBusy(w, squad);
    var h, ev := HillOf(w, squad), HillEvent(w, request);
    SeatedRoster(KingOfTheHill.Step(h, ev), w.nextRoom, Step(w, request).nextRoom);
    HeldAfter(h, ev, p);
    EmptyHoldsNobody(p);
  }

  lemma EmptyHoldsNobody(p: PlayerState)
    ensures p !in Roster(EMPTY)
  {
  }

  lemma {:induction false} RunKeepsKnown(w: World, requests: seq<Request>)
    requires AllLinked(w) && Known(w)
    ensures Known(Run(w, requests))
    decreases |requests|
  {
    if requests != [] {
      StepLinks(w, requests[0]);
      StepKeepsKnown(w, requests[0]);
      RunKeepsKnown(Step(w, requests[0]), requests[1..]);
    }
  }

  // ---------------------------------------------------------------------------------------------
  // Each room changes the hill at most once
  // ---------------------------------------------------------------------------------------------

  function Current(h: Hill): seq<RoomId> {
    if h.room.Some? then [h.room.value] else []
  }

  /** The rooms whose match a request ends, by result or by forfeit, in order. */
  ghost function Ended(w: World, request: Request): seq<RoomId> {
    match request
    case Notice(room, _) => if IsCurrent(w, room) then [room] else []
    case Close(socketId) =>
      if Subject(w, request).None? then [] else EndedByDrop(w, w.socketToSquad[socketId], On(w, socketId))
    case _ => []
  }

  function EndedByDrop(w: World, squad: SquadId, closed: set<PlayerState>): seq<RoomId>
    requires squad in w.hills
  {
    var h := w.hills[squad];
    if SocketIndex(h.queue, closed) >= 0 then []
    else
      var h1 := ChampionForfeit(w, squad, closed).hills[squad];
      (if ChampionForfeits(h, closed) then Current(h) else [])
        + (if ChallengerForfeits(h1, closed) then Current(h1) else [])
  }

  ghost function AllEnded(w: World, requests: seq<Request>): seq<RoomId>
    decreases |requests|
  {
    if requests == [] then [] else Ended(w, requests[0]) + AllEnded(Step(w, requests[0]), requests[1..])
  }

  /** The room was handed out and no squad plays in it any more. */
  ghost predicate Retired(w: World, room: RoomId) {
    room < w.nextRoom && !IsCurrent(w, room)
  }

  lemma AdvancesRetires(w: World, w': World, squad: SquadId, room: RoomId)
    requires AllLinked(w) && Advances(w, w', squad) && room < w.nextRoom
    requires !IsCurrent(w, room) || (HillOf(w, squad).room == Some(room) && w'.hills[squad].room != Some(room))
    ensures Retired(w', room)
  {
    forall s | s in w'.hills ensures w'.hills[s].room != Some(room) {
      if s != squad {
        assert w'.hills[s] == w.hills[s];
      }
    }
  }

  lemma CurrentIsOld(w: World, squad: SquadId)
    requires AllLinked(w) && squad in w.hills
    ensures forall room :: w.hills[squad].room == Some(room) ==> room < w.nextRoom
  {
    assert Linked(w.hills[squad], w.rooms);
  }

  lemma DropRetires(w: World, squad: SquadId, closed: set<PlayerState>, room: RoomId)
    requires AllLinked(w) && squad in w.hills && room in EndedByDrop(w, squad, closed)
    ensures IsCurrent(w, room) || room >= w.nextRoom
    ensures Retired(DropFrom(w, squad, closed), room)
    ensures |EndedByDrop(w, squad, closed)| == 2 ==>
      EndedByDrop(w, squad, closed)[0] != EndedByDrop(w, squad, closed)[1]
  {
    var h, w1 := w.hills[squad], ChampionForfeit(w, squad, closed);
    CurrentIsOld(w, squad);
    if ChampionForfeits(h, closed) {
      EndAdvances(w, squad, Some(h.challenger.value.userId));
      if h.room == Some(room) { AdvancesRetires(w, w1, squad, room); }
    }
    CurrentIsOld(w1, squad);
    var h1 := w1.hills[squad];
    if ChallengerForfeits(h1, closed) {
      EndAdvances(w1, squad, Some(h1.champion.value.userId));
      AdvancesRetires(w1, DropFrom(w, squad, closed), squad, room);
    }
  }

  lemma EndedIsRetired(w: World, request: Request, room: RoomId)
    requires AllLinked(w) && room in Ended(w, request)
    ensures Retired(Step(w, request), room) && !Retired(w, room)
  {
    match request
    case Close(socketId) => DropRetires(w, w.socketToSquad[socketId], On(w, socketId), room);
    case Notice(other, winnerId) =>
      var squad := SquadOf(w, room);
      CurrentIsOld(w, squad);
      EndCurrent(w, room, winnerId);
      EndAdvances(w, squad, winnerId);
      AdvancesRetires(w, Step(w, request), squad, room);
    case _ =>
  }

  lemma {:induction false} RetiredForever(w: World, requests: seq<Request>, room: RoomId)
    requires AllLinked(w) && Retired(w, room)
    ensures Retired(Run(w, requests), room) && room !in AllEnded(w, requests)
    decreases |requests|
  {
    if requests != [] {
      var request, w' := requests[0], Step(w, requests[0]);
      StepAdvances(w, request);
      if Subject(w, request).Some? {
        AdvancesRetires(w, w', Subject(w, request).value, room);
      } else {
        assert w'.hills == w.hills;
      }
      if room in Ended(w, request) { EndedIsRetired(w, request, room); }
      StepLinks(w, request);
      RetiredForever(w', requests[1..], room);
    }
  }

  ghost predicate Distinct(rooms: seq<RoomId>) {
    forall i, j :: 0 <= i < j < |rooms| ==> rooms[i] != rooms[j]
  }

  lemma EndedIsDistinct(w: World, request: Request)
    requires AllLinked(w)
    ensures Distinct(Ended(w, request))
  {
    if request.Close? && |Ended(w, request)| == 2 {
      DropRetires(w, w.socketToSquad[request.socketId], On(w, request.socketId), Ended(w, request)[0]);
    }
  }

  lemma DistinctConcat(first: seq<RoomId>, rest: seq<RoomId>)
    requires Distinct(first) && Distinct(rest) && forall room :: room in first ==> room !in rest
    ensures Distinct(first + rest)
  {
    var all := first + rest;
    forall i, j | 0 <= i < j < |all| ensures all[i] != all[j] {
      if i < |first| <= j { assert all[i] in first && all[j] in rest; }
    }
  }

  /** Over any run no room ends twice, so each room rotates a hill at most once, by its result or by a forfeit. */
  lemma {:induction false} EachRoomEndsOnce(w: World, requests: seq<Request>)
    requires AllLinked(w)
    ensures Distinct(AllEnded(w, requests))
    decreases |requests|
  {
    if requests != [] {
      var request, w' := requests[0], Step(w, requests[0]);
      StepLinks(w, request);
      EachRoomEndsOnce(w', requests[1..]);
      EndedIsDistinct(w, request);
      forall room | room in Ended(w, request) ensures room !in AllEnded(w', requests[1..]) {
        EndedIsRetired(w, request, room);
        RetiredForever(w', requests[1..], room);
      }
      DistinctConcat(Ended(w, request), AllEnded(w', requests[1..]));
    }
  }

  /** After a room has ended, every later notice about it is ignored. */
  lemma LateNoticeIgnored(w: World, request: Request, later: seq<Request>, room: RoomId, winnerId: Option<string>)
    requires AllLinked(w) && room in Ended(w, request)
    ensures Notify(Run(Step(w, request), later), room, winnerId) == Run(Step(w, request), later)
  {
    StepLinks(w, request);
    EndedIsRetired(w, request, room);
    RetiredForever(Step(w, request), later, room);
  }

  /** The finished match of a squad moves its hill on if and only if one of its players has a verified wallet;
      otherwise the squad keeps waiting for a match that is already over. */
  lemma HillMovesOnIffVerified(w: World, squad: SquadId, room: RoomId, winnerId: Option<string>)
    requires AllLinked(w) && squad in w.hills && w.hills[squad].room == Some(room) && room in w.rooms
    ensures
      var h := w.hills[squad];
      && CanEnd(h)
      && (Finished(w, room, winnerId).hills[squad] != h <==>
            h.champion.value.walletVerified || h.challenger.value.walletVerified)
      && (Finished(w, room, winnerId).hills[squad] != h ==>
            Finished(w, room, winnerId).hills[squad] == EndMatch(h, winnerId).(room := Some(w.nextRoom)))
  {
    assert Linked(w.hills[squad], w.rooms);
    assert SquadOf(w, room) == squad;
    EndIsHillEnd(w, squad, winnerId);
  }
}
