/** Squads and rooms as one machine: every room that the gateway makes is opened in the game service, and the gateway
    hears of the end of a match by the finalization of its room. */
module Arena {
  import opened Wrappers
  import opened Lists
  import opened Players
  import opened KingOfTheHill
  import opened SquadWorld
  import opened Disconnects
  import opened LiveRooms
  import Match

  datatype State = State(world: World, service: Service)

  const NOTHING_YET := State(NOTHING, NO_ROOMS)

  /** `Finish` is the end of the finalization of a room. */
  datatype Deed = Ask(request: Request) | Submit(room: RoomId, submission: Match.Submission) | Finish(room: RoomId)

  /** Opens the rooms from the service's next one on, in the order of their ids. */
  function OpenUpTo(sv: Service, rooms: map<RoomId, Pairing>, next: RoomId): Service
    decreases next - sv.nextRoom
  {
    if sv.nextRoom >= next || sv.nextRoom !in rooms then sv
    else OpenUpTo(LiveRooms.Step(sv, Open(rooms[sv.nextRoom])), rooms, next)
  }

  lemma OpensOne(sv: Service, rooms: map<RoomId, Pairing>, next: RoomId)
    requires sv.nextRoom + 1 == next && sv.nextRoom in rooms
    ensures OpenUpTo(sv, rooms, next) == LiveRooms.Step(sv, Open(rooms[sv.nextRoom]))
  {
    hide NewBoard;
    assert OpenUpTo(LiveRooms.Step(sv, Open(rooms[sv.nextRoom])), rooms, next)
           == LiveRooms.Step(sv, Open(rooms[sv.nextRoom]));
  }

  function WithWorld(a: State, w: World): State {
    State(w, OpenUpTo(a.service, w.rooms, w.nextRoom))
  }

  ghost function Step(a: State, deed: Deed): State {
    match deed
    case Ask(request) => if request.Notice? then a else WithWorld(a, SquadWorld.Step(a.world, request))
    case Submit(room, s) => a.(service := LiveRooms.Step(a.service, Play(room, s)))
    case Finish(room) =>
      if room in a.service.finalizing && room in a.service.boards && room in a.world.rooms
      then WithWorld(a, Finished(a.world, room, a.service.boards[room].winnerId))
      else a
  }

  ghost function Run(a: State, deeds: seq<Deed>): State
    decreases |deeds|
  {
    if deeds == [] then a else Run(Step(a, deeds[0]), deeds[1..])
  }

  // ---------------------------------------------------------------------------------------------
  // Both sides agree
  // ---------------------------------------------------------------------------------------------

  /** Room ids are handed out without gaps. */
  ghost predicate Dense(w: World) {
    forall r :: r in w.rooms <==> 0 <= r < w.nextRoom
  }

  ghost predicate Synced(a: State) {
    && a.service.nextRoom == a.world.nextRoom && a.service.boards.Keys == a.world.rooms.Keys
    && (forall r :: r in a.world.rooms ==> a.service.boards[r].seats == a.world.rooms[r])
  }

  /** Rooms are made for two different users. */
  ghost predicate ProperRooms(w: World) {
    forall r :: r in w.rooms ==> w.rooms[r].player1.userId != w.rooms[r].player2.userId
  }

  ghost predicate Consistent(a: State) {
    && Dense(a.world) && ProperRooms(a.world) && AllLinked(a.world) && AllUnique(a.world)
    && Synced(a) && Sane(a.service)
  }

  /** Matchmaking and invites pair two different users. */
  predicate ProperDeed(deed: Deed) {
    deed.Ask? && deed.request.OtherRoom? ==> deed.request.seats.player1.userId != deed.request.seats.player2.userId
  }

  lemma EndKeepsDense(w: World, squad: SquadId, winnerId: Option<string>)
    requires Dense(w)
    ensures Dense(EndSquadMatch(w, squad, winnerId))
  {
  }

  lemma DropKeepsDense(w: World, squad: SquadId, closed: set<PlayerState>)
    requires Dense(w)
    ensures Dense(DropFrom(w, squad, closed))
  {
    hide EndSquadMatch, SocketIndex, RemoveAt, Dense;
    if squad in w.hills {
      var h := w.hills[squad];
      if SocketIndex(h.queue, closed) >= 0 {
        SameRoomsDense(w, DropFrom(w, squad, closed));
      } else {
        if ChampionForfeits(h, closed) {
          EndKeepsDense(w, squad, Some(h.challenger.value.userId));
          EndKeepsSockets(w, squad, Some(h.challenger.value.userId));
        }
        var w1 := ChampionForfeit(w, squad, closed);
        if ChallengerForfeits(w1.hills[squad], closed) {
          EndKeepsDense(w1, squad, Some(w1.hills[squad].champion.value.userId));
        }
      }
    }
  }

  lemma SameRoomsDense(w: World, w': World)
    requires Dense(w) && w'.rooms == w.rooms && w'.nextRoom == w.nextRoom
    ensures Dense(w')
  {
  }

  lemma StepKeepsDense(w: World, request: Request)
    requires Dense(w)
    ensures Dense(SquadWorld.Step(w, request))
  {
    match request
    case Close(socketId) =>
      if socketId in w.socketToSquad {
        DropKeepsDense(w, w.socketToSquad[socketId], On(w, socketId));
        SameRoomsDense(DropFrom(w, w.socketToSquad[socketId], On(w, socketId)), SquadWorld.Step(w, request));
      }
    case Notice(room, winnerId) =>
      if IsCurrent(w, room) { EndKeepsDense(w, SquadOf(w, room), winnerId); }
    case _ =>
  }

  lemma EndKeepsUnique(w: World, squad: SquadId, winnerId: Option<string>)
    requires AllUnique(w)
    ensures AllUnique(EndSquadMatch(w, squad, winnerId))
  {
    hide Inv, EndMatch, Rotate;
    if squad in w.hills && CanEnd(w.hills[squad]) {
      var h := w.hills[squad];
      EndIsHillEnd(w, squad, winnerId);
      StepPreservesInv(h, MatchEnd(winnerId));
      SeatedInv(EndMatch(h, winnerId), w.nextRoom, w.nextRoom + 1);
    } else {
      assert EndSquadMatch(w, squad, winnerId) == w;
    }
  }

  lemma EndSeats(w: World, squad: SquadId, winnerId: Option<string>)
    requires squad in w.hills && CanEnd(w.hills[squad])
    ensures
      var h := EndMatch(w.hills[squad], winnerId);
      CanEnd(h) && EndSquadMatch(w, squad, winnerId).rooms
        == w.rooms[w.nextRoom := Pairing(h.champion.value, h.challenger.value)]
  {
    EndRestarts(w.hills[squad], winnerId);
  }

  lemma EndKeepsProper(w: World, squad: SquadId, winnerId: Option<string>)
    requires AllUnique(w) && ProperRooms(w)
    ensures ProperRooms(EndSquadMatch(w, squad, winnerId))
  {
    hide Inv, EndMatch, EndSquadMatch;
    if squad in w.hills && CanEnd(w.hills[squad]) {
      EndSeats(w, squad, winnerId);
      StepPreservesInv(w.hills[squad], MatchEnd(winnerId));
      ChampionIsNotChallenger(EndMatch(w.hills[squad], winnerId));
    } else {
      NoEnd(w, squad, winnerId);
    }
  }

  lemma NoEnd(w: World, squad: SquadId, winnerId: Option<string>)
    requires !(squad in w.hills && CanEnd(w.hills[squad]))
    ensures EndSquadMatch(w, squad, winnerId) == w
  {
  }

  lemma DropKeepsProper(w: World, squad: SquadId, closed: set<PlayerState>)
    requires AllUnique(w) && ProperRooms(w)
    ensures ProperRooms(DropFrom(w, squad, closed))
  {
    hide EndSquadMatch, SocketIndex, RemoveAt, AllUnique, ProperRooms;
    if squad in w.hills {
      var h := w.hills[squad];
      if SocketIndex(h.queue, closed) >= 0 {
        SameRoomsProper(w, DropFrom(w, squad, closed));
      } else {
        if ChampionForfeits(h, closed) {
          EndKeepsProper(w, squad, Some(h.challenger.value.userId));
          EndKeepsUnique(w, squad, Some(h.challenger.value.userId));
          EndKeepsSockets(w, squad, Some(h.challenger.value.userId));
        }
        var w1 := ChampionForfeit(w, squad, closed);
        if ChallengerForfeits(w1.hills[squad], closed) {
          EndKeepsProper(w1, squad, Some(w1.hills[squad].champion.value.userId));
        }
      }
    }
  }

  lemma SameRoomsProper(w: World, w': World)
    requires ProperRooms(w) && w'.rooms == w.rooms
    ensures ProperRooms(w')
  {
  }

  /** A join that starts a match seats two players of the squad. */
  lemma EnterSeats(w: World, squad: SquadId, player: PlayerState, socketId: string)
    ensures
      var w' := Enter(w, squad, player, socketId);
      var h := JoinQueue(HillOf(w, squad), player);
      if w'.nextRoom == w.nextRoom then w'.rooms == w.rooms
      else CanEnd(h) && w'.rooms == w.rooms[w.nextRoom := Pairing(h.champion.value, h.challenger.value)]
  {
  }

  lemma EnterKeepsProper(w: World, squad: SquadId, player: PlayerState, socketId: string)
    requires AllUnique(w) && ProperRooms(w)
    ensures ProperRooms(Enter(w, squad, player, socketId))
  {
    hide Inv, JoinQueue, Enter;
    EnterSeats(w, squad, player, socketId);
    HillIsUnique(w, squad);
    StepPreservesInv(HillOf(w, squad), Join(player));
    if Enter(w, squad, player, socketId).nextRoom != w.nextRoom {
      ChampionIsNotChallenger(JoinQueue(HillOf(w, squad), player));
    }
  }

  lemma StepKeepsProper(w: World, request: Request)
    requires AllUnique(w) && ProperRooms(w) && ProperDeed(Ask(request))
    ensures ProperRooms(SquadWorld.Step(w, request))
  {
    hide AllUnique, Enter, DropFrom, EndSquadMatch;
    match request
    case JoinSquad(squad, player, socketId) => EnterKeepsProper(w, squad, player, socketId);
    case Close(socketId) =>
      if socketId in w.socketToSquad {
        DropKeepsProper(w, w.socketToSquad[socketId], On(w, socketId));
      }
    case Notice(room, winnerId) =>
      if IsCurrent(w, room) { EndKeepsProper(w, SquadOf(w, room), winnerId); }
    case _ =>
  }

  /** What opening the new rooms does to the service. */
  lemma {:induction false} OpenedUpTo(sv: Service, rooms: map<RoomId, Pairing>, next: RoomId)
    requires Sane(sv) && sv.nextRoom <= next
    requires forall r :: sv.nextRoom <= r < next ==> r in rooms && rooms[r].player1.userId != rooms[r].player2.userId
    ensures
      var sv' := OpenUpTo(sv, rooms, next);
      && Sane(sv') && sv'.nextRoom == next && sv'.moves == sv.moves && sv'.finalizing == sv.finalizing
      && (forall r :: r in sv'.boards <==> r in sv.boards || sv.nextRoom <= r < next)
      && (forall r :: r in sv.boards ==> sv'.boards[r] == sv.boards[r])
      && (forall r :: sv.nextRoom <= r < next ==> sv'.boards[r] == NewBoard(rooms[r]))
    decreases next - sv.nextRoom
  {
    hide AllScored, FinalizesCompleted;
    if sv.nextRoom < next {
      var a := Open(rooms[sv.nextRoom]);
      assert [a][0] == a;
      StepKeepsSane(sv, a);
      OpenedUpTo(LiveRooms.Step(sv, a), rooms, next);
    }
  }

  /** One world grew out of another. */
  ghost predicate Grows(w: World, w': World) {
    w.nextRoom <= w'.nextRoom && forall r :: r in w.rooms ==> r in w'.rooms && w'.rooms[r] == w.rooms[r]
  }

  lemma StepGrows(w: World, request: Request)
    requires AllLinked(w)
    ensures Grows(w, SquadWorld.Step(w, request))
  {
    hide SquadWorld.Step;
    SquadWorld.StepAdvances(w, request);
  }

  lemma OpenedIsSynced(a: State, w: World, sv': Service)
    requires Dense(a.world) && Synced(a) && Grows(a.world, w) && Dense(w) && sv'.nextRoom == w.nextRoom
    requires forall r :: r in sv'.boards <==> r in a.service.boards || a.world.nextRoom <= r < w.nextRoom
    requires forall r :: r in a.service.boards ==> sv'.boards[r] == a.service.boards[r]
    requires forall r :: a.world.nextRoom <= r < w.nextRoom ==> sv'.boards[r] == NewBoard(w.rooms[r])
    ensures Synced(State(w, sv'))
  {
    assert forall r :: r in sv'.boards.Keys <==> r in w.rooms.Keys;
  }

  lemma WithWorldIs(a: State, w: World)
    requires Dense(a.world) && Synced(a) && Sane(a.service) && Grows(a.world, w) && Dense(w) && ProperRooms(w)
    ensures
      var a' := WithWorld(a, w);
      && Synced(a') && Sane(a'.service) && a'.world == w
      && a'.service.moves == a.service.moves && a'.service.finalizing == a.service.finalizing
      && (forall r :: r in a.service.boards ==> r in a'.service.boards && a'.service.boards[r] == a.service.boards[r])
      && (forall r :: a.world.nextRoom <= r < w.nextRoom ==>
            r in a'.service.boards && a'.service.boards[r] == NewBoard(w.rooms[r]))
  {
    hide Sane, OpenUpTo;
    OpenedUpTo(a.service, w.rooms, w.nextRoom);
    hide Grows, NewBoard;
    OpenedIsSynced(a, w, OpenUpTo(a.service, w.rooms, w.nextRoom));
  }

  /** The world a deed leads to. */
  ghost function WorldAfter(a: State, deed: Deed): World {
    match deed
    case Ask(request) => if request.Notice? then a.world else SquadWorld.Step(a.world, request)
    case Submit(_, _) => a.world
    case Finish(room) =>
      if room in a.service.finalizing && room in a.service.boards && room in a.world.rooms
      then Finished(a.world, room, a.service.boards[room].winnerId) else a.world
  }

  /** As one request of the squads, if it is one. */
  ghost function RequestOf(a: State, deed: Deed): Option<Request> {
    match deed
    case Ask(request) => if request.Notice? then None else Some(request)
    case Submit(_, _) => None
    case Finish(room) =>
      if room in a.service.finalizing && room in a.service.boards && room in a.world.rooms
         && (a.world.rooms[room].player1.walletVerified || a.world.rooms[room].player2.walletVerified)
      then Some(Notice(room, a.service.boards[room].winnerId)) else None
  }

  lemma WorldAfterIs(a: State, deed: Deed)
    ensures WorldAfter(a, deed) ==
      if RequestOf(a, deed).Some? then SquadWorld.Step(a.world, RequestOf(a, deed).value) else a.world
  {
  }

  lemma WorldStaysConsistent(w: World, request: Request)
    requires Dense(w) && ProperRooms(w) && AllLinked(w) && AllUnique(w) && ProperDeed(Ask(request))
    ensures
      var w' := SquadWorld.Step(w, request);
      Dense(w') && ProperRooms(w') && AllLinked(w') && AllUnique(w') && Grows(w, w')
  {
    hide SquadWorld.Step, AllLinked, AllUnique, Dense, ProperRooms, Grows;
    StepKeepsDense(w, request);
    StepKeepsProper(w, request);
    StepLinks(w, request);
    StepKeepsAllUnique(w, request);
    StepGrows(w, request);
  }

  lemma SubmitKeepsConsistent(a: State, room: RoomId, s: Match.Submission)
    requires Consistent(a)
    ensures Consistent(Step(a, Submit(room, s)))
  {
    hide AllScored, FinalizesCompleted, AllLinked, AllUnique, Dense;
    assert [Play(room, s)][0] == Play(room, s);
    StepKeepsSane(a.service, Play(room, s));
    if room in a.service.boards { PlayIsNext(a.service, room, s); }
  }

  lemma StepKeepsConsistent(a: State, deed: Deed)
    requires Consistent(a) && ProperDeed(deed)
    ensures Consistent(Step(a, deed)) && Grows(a.world, Step(a, deed).world)
    ensures Step(a, deed).world == WorldAfter(a, deed)
  {
    hide AllLinked, AllUnique, SquadWorld.Step, Sane, Dense, ProperRooms;
    if deed.Submit? {
      SubmitKeepsConsistent(a, deed.room, deed.submission);
    } else {
      WorldAfterIs(a, deed);
      if RequestOf(a, deed).Some? {
        WorldStaysConsistent(a.world, RequestOf(a, deed).value);
        WithWorldIs(a, WorldAfter(a, deed));
      } else {
        SameWorld(a);
      }
    }
  }

  lemma SameWorld(a: State)
    requires Synced(a)
    ensures WithWorld(a, a.world) == a
  {
  }

  lemma {:induction false} RunKeepsConsistent(a: State, deeds: seq<Deed>)
    requires Consistent(a) && forall i :: 0 <= i < |deeds| ==> ProperDeed(deeds[i])
    ensures Consistent(Run(a, deeds))
    decreases |deeds|
  {
    if deeds != [] {
      StepKeepsConsistent(a, deeds[0]);
      RunKeepsConsistent(Step(a, deeds[0]), deeds[1..]);
    }
  }

  /** Over every run of squads and rooms together: same rooms on both sides, every room well scored, and every squad
      linked to its room. */
  lemma ReachableArenas(deeds: seq<Deed>)
    requires forall i :: 0 <= i < |deeds| ==> ProperDeed(deeds[i])
    ensures Consistent(Run(NOTHING_YET, deeds))
  {
    RunKeepsConsistent(NOTHING_YET, deeds);
  }

  // ---------------------------------------------------------------------------------------------
  // The winner of a room
  // ---------------------------------------------------------------------------------------------

  /** The recorded winner of a completed current room is the champion or the challenger, so no match of a squad is ever
      drawn: the winner is the next champion and the loser goes behind everybody who waits. */
  lemma WinnerStays(a: State, squad: SquadId, room: RoomId)
    requires Consistent(a) && squad in a.world.hills && a.world.hills[squad].room == Some(room)
    requires room in a.service.finalizing
    ensures room in a.service.boards && CanEnd(a.world.hills[squad])
    ensures
      var h, winnerId := a.world.hills[squad], a.service.boards[room].winnerId;
      && winnerId in {Some(h.champion.value.userId), Some(h.challenger.value.userId)}
      && (var line := Order(EndMatch(h, winnerId));
          && |line| == |h.queue| + 2 && winnerId == Some(line[0].userId) && line[1..|line| - 1] == h.queue
          && {line[0], line[|line| - 1]} == {h.champion.value, h.challenger.value})
  {
    hide EndMatch, Order, Inv;
    var h := a.world.hills[squad];
    assert Linked(h, a.world.rooms);
    assert Match.WellScored(LiveRooms.View(a.service, room));
    ChampionIsNotChallenger(h);
    WinnerStaysLoserQueues(h, a.service.boards[room].winnerId);
  }
}
