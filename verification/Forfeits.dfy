/** Rooms over players who still play elsewhere, or still carry a move: what a forfeit, and a squad of two, lead to. */
module Forfeits {
  import opened Wrappers
  import opened Players
  import opened KingOfTheHill
  import opened SquadWorld
  import opened Disconnects
  import opened StrandedEntries
  import opened Arena
  import opened Stalling
  import Match
  import RpsEngine
  import LiveRooms
  import RoomLiveness

  /** A forfeit ends the squad's room for the squad only, and its winner sits in the next room with the same object. */
  lemma ForfeitSharesWinner(w: World, squad: SquadId, closed: set<PlayerState>)
    requires AllLinked(w) && squad in w.hills && Forfeit(w.hills[squad], closed)
    ensures
      var w' := DropFrom(w, squad, closed);
      && squad in w'.hills && w.hills[squad].room.Some? && w'.hills[squad].room.Some?
      && (var left, next := w.hills[squad].room.value, w'.hills[squad].room.value;
          && left in w.rooms && next in w'.rooms && left < w.nextRoom <= next
          && Seats(w.rooms[left], Remaining(w.hills[squad], closed))
          && Seats(w'.rooms[next], Remaining(w.hills[squad], closed)))
  {
    hide DropFrom, DropSocket, SocketIndex;
    var h, w' := w.hills[squad], DropFrom(w, squad, closed);
    assert Linked(h, w.rooms);
    DropAdvances(w, squad, closed);
    DropIsHillDrop(w, squad, closed);
    ForfeiterGoesLast(h, closed);
    assert Linked(w'.hills[squad], w'.rooms);
    ForfeitClearsRoom(h, closed);
  }

  lemma ForfeitClearsRoom(h: Hill, closed: set<PlayerState>)
    requires Forfeit(h, closed)
    ensures DropSocket(h, closed).room.None?
  {
    var h1 := AfterChampionForfeit(h, closed);
    if ChampionForfeits(h, closed) { EndRestarts(h, Some(h.challenger.value.userId)); }
    if ChallengerForfeits(h1, closed) { EndRestarts(h1, Some(h1.champion.value.userId)); }
  }

  /** So while the room they left is in progress, the squad's new room is not live: some submissions block it. */
  lemma ForfeitBreaksLiveness(a: State, squad: SquadId, socketId: string, left: RoomId)
    requires Consistent(a) && squad in a.world.hills && InSquad(a.world, squad, socketId)
    requires Forfeit(a.world.hills[squad], On(a.world, socketId)) && a.world.hills[squad].room == Some(left)
    requires left in a.service.boards && a.service.boards[left].status == Match.InProgress
    ensures
      var a' := Arena.Step(a, Ask(Close(socketId)));
      && squad in a'.world.hills && a'.world.hills[squad].room.Some?
      && (var next := a'.world.hills[squad].room.value;
          && next in a'.service.boards && a'.service.boards[next].status == Match.InProgress
          && exists actions ::
               && LiveRooms.Proper(actions) && LiveRooms.NoneOver(actions, a'.service.boards[next].seats)
               && next in LiveRooms.Run(a'.service, actions).boards
               && RoomLiveness.Blocked(LiveRooms.Run(a'.service, actions), next))
  {
    hide DropFrom, Forfeit, Remaining, AllLinked, AllUnique, LiveRooms.Sane, Dense, ProperRooms;
    var deed, closed, w := Ask(Close(socketId)), On(a.world, socketId), a.world;
    var a' := Arena.Step(a, deed);
    ForfeitSharesWinner(w, squad, closed);
    StepKeepsConsistent(a, deed);
    assert a'.world.hills == DropFrom(w, squad, closed).hills && a'.world.rooms == DropFrom(w, squad, closed).rooms;
    DeedOpens(a, deed);
    var next := a'.world.hills[squad].room.value;
    NewRoomsAreNew(a, next);
    RoomLiveness.SharedIsBlockable(a'.service, next, left);
  }

  lemma NewRoomsAreNew(a: State, room: RoomId)
    requires Consistent(a) && a.world.nextRoom <= room
    ensures room !in a.service.boards
  {
  }

  /** For example: A, B and C join, B closes his socket, C moves in his room with A, and A in the one B left. */
  function Leaving(squad: SquadId, a: PlayerState, b: PlayerState, c: PlayerState): seq<Deed> {
    [Ask(JoinSquad(squad, a, "a")), Ask(JoinSquad(squad, b, "b")), Ask(JoinSquad(squad, c, "c")), Ask(Close("b")),
     Submit(1, Match.Submission(c.userId, "rock")), Submit(0, Match.Submission(a.userId, "rock"))]
  }

  lemma StrandedByForfeit(squad: SquadId, a: PlayerState, b: PlayerState, c: PlayerState)
    requires a.userId != b.userId && a.userId != c.userId && b.userId != c.userId
    ensures
      var s := Arena.Run(NOTHING_YET, Leaving(squad, a, b, c));
      && squad in s.world.hills && s.world.hills[squad] == Playing(a, c, [b], 1)
      && s.world.rooms == map[0 := Pairing(a, b), 1 := Pairing(a, c)]
      && 1 in s.service.boards && RoomLiveness.Blocked(s.service, 1)
  {
    hide Arena.Step, LiveRooms.Step, SquadWorld.Step, RoomLiveness.Blocked;
    var deeds := Leaving(squad, a, b, c);
    RunOfSixDeeds(NOTHING_YET, deeds);
    var s4 := FourAsk(squad, a, b, c);
    assert s4 == Arena.Step(Arena.Step(Arena.Step(Arena.Step(NOTHING_YET, deeds[0]), deeds[1]), deeds[2]), deeds[3]);
    SubmitIs(s4, 1, Match.Submission(c.userId, "rock"));
    SubmitIs(Arena.Step(s4, deeds[4]), 0, Match.Submission(a.userId, "rock"));
    TwoMove(s4.service, a, b, c);
  }

  lemma SubmitIs(a: State, room: RoomId, s: Match.Submission)
    ensures Arena.Step(a, Submit(room, s)) == State(a.world, LiveRooms.Step(a.service, LiveRooms.Play(room, s)))
  {
  }

  /** A request that makes no room, or one. */
  lemma AskIs(a: State, request: Request)
    requires a.service.nextRoom == a.world.nextRoom && !request.Notice?
    ensures
      var a', w', n := Arena.Step(a, Ask(request)), SquadWorld.Step(a.world, request), a.world.nextRoom;
      && (w'.nextRoom == n ==> a' == State(w', a.service))
      && (w'.nextRoom == n + 1 && n in w'.rooms ==>
            a' == State(w', LiveRooms.Step(a.service, LiveRooms.Open(w'.rooms[n]))))
  {
    hide SquadWorld.Step, LiveRooms.Step, OpenUpTo;
    var w', n := SquadWorld.Step(a.world, request), a.world.nextRoom;
    if w'.nextRoom == n + 1 && n in w'.rooms { OpensOne(a.service, w'.rooms, w'.nextRoom); }
    OpensNone(a.service, w'.rooms);
  }

  lemma OpensNone(sv: LiveRooms.Service, rooms: map<RoomId, Pairing>)
    ensures OpenUpTo(sv, rooms, sv.nextRoom) == sv
  {
  }

  lemma RunOfSixDeeds(a: State, deeds: seq<Deed>)
    requires |deeds| == 6
    ensures Arena.Run(a, deeds) ==
      Arena.Step(Arena.Step(Arena.Step(Arena.Step(Arena.Step(Arena.Step(
        a, deeds[0]), deeds[1]), deeds[2]), deeds[3]), deeds[4]), deeds[5])
  {
    hide Arena.Step, Arena.Run;
    var a1 := Arena.Step(a, deeds[0]);
    var a2 := Arena.Step(a1, deeds[1]);
    var a3 := Arena.Step(a2, deeds[2]);
    var a4 := Arena.Step(a3, deeds[3]);
    var a5 := Arena.Step(a4, deeds[4]);
    RunConsOfDeeds(a, deeds[0], deeds[1..]);
    RunConsOfDeeds(a1, deeds[1], deeds[2..]);
    RunConsOfDeeds(a2, deeds[2], deeds[3..]);
    RunConsOfDeeds(a3, deeds[3], deeds[4..]);
    RunConsOfDeeds(a4, deeds[4], deeds[5..]);
    RunConsOfDeeds(a5, deeds[5], []);
    assert deeds == [deeds[0]] + deeds[1..] && deeds[1..] == [deeds[1]] + deeds[2..];
    assert deeds[2..] == [deeds[2]] + deeds[3..] && deeds[3..] == [deeds[3]] + deeds[4..];
    assert deeds[4..] == [deeds[4]] + deeds[5..] && deeds[5..] == [deeds[5]] + [];
    NoDeeds(Arena.Step(a5, deeds[5]));
  }

  lemma RunConsOfDeeds(a: State, deed: Deed, rest: seq<Deed>)
    ensures Arena.Run(a, [deed] + rest) == Arena.Run(Arena.Step(a, deed), rest)
  {
    assert ([deed] + rest)[1..] == rest;
  }

  lemma NoDeeds(a: State)
    ensures Arena.Run(a, []) == a
  {
  }

  /** The squad's part of the run. */
  lemma FourAsk(squad: SquadId, a: PlayerState, b: PlayerState, c: PlayerState) returns (s: State)
    requires a.userId != b.userId && a.userId != c.userId && b.userId != c.userId
    ensures
      var deeds := Leaving(squad, a, b, c);
      s == Arena.Step(Arena.Step(Arena.Step(Arena.Step(NOTHING_YET, deeds[0]), deeds[1]), deeds[2]), deeds[3])
    ensures s.world.hills == map[squad := Playing(a, c, [b], 1)]
    ensures s.world.rooms == map[0 := Pairing(a, b), 1 := Pairing(a, c)]
    ensures s.service ==
      LiveRooms.Service(map[0 := LiveRooms.NewBoard(Pairing(a, b)), 1 := LiveRooms.NewBoard(Pairing(a, c))],
                        map[], 2, [])
  {
    hide SquadWorld.Step, Arena.Step, LiveRooms.Step;
    var deeds := Leaving(squad, a, b, c);
    var s2 := TwoAsk(squad, a, b, c);
    ThirdJoins(s2.world, squad, a, b, 0, c, "c");
    AskIs(s2, deeds[2].request);
    var s3 := Arena.Step(s2, deeds[2]);
    assert "a"[0] != "b"[0] && "c"[0] != "b"[0];
    ChallengerCloses(s3.world, squad, a, b, 0, c, "b");
    AskIs(s3, deeds[3].request);
    s := Arena.Step(s3, deeds[3]);
    TwoOpen(a, b, c);
  }

  lemma TwoAsk(squad: SquadId, a: PlayerState, b: PlayerState, c: PlayerState) returns (s: State)
    requires a.userId != b.userId
    ensures
      var deeds := Leaving(squad, a, b, c);
      s == Arena.Step(Arena.Step(NOTHING_YET, deeds[0]), deeds[1])
    ensures s.world == World(map[squad := Playing(a, b, [], 0)], map[0 := Pairing(a, b)], 1,
                             map["a" := squad]["b" := squad], map[a := "a"][b := "b"])
    ensures s.service.nextRoom == 1
    ensures s.service == LiveRooms.Step(LiveRooms.NO_ROOMS, LiveRooms.Open(Pairing(a, b)))
  {
    hide SquadWorld.Step, Arena.Step, LiveRooms.Step;
    var deeds := Leaving(squad, a, b, c);
    FirstJoins(NOTHING, squad, a, "a");
    AskIs(NOTHING_YET, deeds[0].request);
    var s1 := Arena.Step(NOTHING_YET, deeds[0]);
    SecondJoins(s1.world, squad, a, b, "b");
    AskIs(s1, deeds[1].request);
    s := Arena.Step(s1, deeds[1]);
    TwoOpen(a, b, c);
  }

  lemma TwoOpen(a: PlayerState, b: PlayerState, c: PlayerState)
    ensures
      var sv := LiveRooms.Step(LiveRooms.NO_ROOMS, LiveRooms.Open(Pairing(a, b)));
      && sv.nextRoom == 1
      && LiveRooms.Step(sv, LiveRooms.Open(Pairing(a, c))) ==
           LiveRooms.Service(map[0 := LiveRooms.NewBoard(Pairing(a, b)), 1 := LiveRooms.NewBoard(Pairing(a, c))],
                             map[], 2, [])
  {
  }

  lemma TwoMove(sv: LiveRooms.Service, a: PlayerState, b: PlayerState, c: PlayerState)
    requires a.userId != b.userId && a.userId != c.userId && b.userId != c.userId
    requires sv.moves == map[] && sv.nextRoom == 2
    requires sv.boards == map[0 := LiveRooms.NewBoard(Pairing(a, b)), 1 := LiveRooms.NewBoard(Pairing(a, c))]
    ensures
      var sv' := LiveRooms.Step(LiveRooms.Step(sv, LiveRooms.Play(1, Match.Submission(c.userId, "rock"))),
                                LiveRooms.Play(0, Match.Submission(a.userId, "rock")));
      1 in sv'.boards && RoomLiveness.Blocked(sv', 1)
  {
    RoomLiveness.ThrowFirst(sv, 1, c, a, RpsEngine.Rock);
    var sv1 := RoomLiveness.Throw(sv, 1, c, RpsEngine.Rock);
    RoomLiveness.ThrowFirst(sv1, 0, a, b, RpsEngine.Rock);
    var sv2 := RoomLiveness.Throw(sv1, 0, a, RpsEngine.Rock);
    RoomLiveness.BlockedIff(sv2, 1);
  }

  lemma PairPlaysAgain(w: World, squad: SquadId, winnerId: Option<string>)
    requires AllLinked(w) && squad in w.hills && w.hills[squad].room.Some? && w.hills[squad].queue == []
    ensures
      var w' := EndSquadMatch(w, squad, winnerId);
      && w.hills[squad].room.value in w.rooms && w.nextRoom in w'.rooms
      && squad in w'.hills && w'.hills[squad].room == Some(w.nextRoom)
      && (var seats := w.rooms[w.hills[squad].room.value];
          w'.rooms[w.nextRoom] in {seats, Pairing(seats.player2, seats.player1)})
  {
    assert Linked(w.hills[squad], w.rooms);
    EndAdvances(w, squad, winnerId);
    assert Linked(EndSquadMatch(w, squad, winnerId).hills[squad], EndSquadMatch(w, squad, winnerId).rooms);
    EndRestarts(w.hills[squad], winnerId);
  }

  /** In a squad of two every match that play completes is followed by a room over the same two objects, which is
      blocked from the start, because the deciding moves are still on them. */
  lemma SquadOfTwoIsBlocked(a: State, squad: SquadId, room: RoomId, s: Match.Submission)
    requires Consistent(a) && squad in a.world.hills && a.world.hills[squad].room == Some(room)
    requires a.world.hills[squad].queue == [] && room in a.world.rooms && room in a.service.boards
    requires a.world.rooms[room].player1.walletVerified || a.world.rooms[room].player2.walletVerified
    requires a.service.boards[room].status == Match.InProgress
    requires room in Arena.Step(a, Submit(room, s)).service.finalizing
    ensures
      var a', next := Arena.Step(Arena.Step(a, Submit(room, s)), Finish(room)), a.world.nextRoom;
      && squad in a'.world.hills && a'.world.hills[squad].room == Some(next)
      && next in a'.service.boards && RoomLiveness.Blocked(a'.service, next)
  {
    hide Arena.Step, LiveRooms.Step, Consistent, LiveRooms.Sane, AllLinked, EndSquadMatch, RoomLiveness.Blocked;
    var done, sv := Arena.Step(a, Submit(room, s)), a.service;
    SubmitIs(a, room, s);
    StepKeepsConsistent(a, Submit(room, s));
    RoomOfBoth(a, room);
    FinalizingIsCompleted(done, room);
    FinishIs(done, squad, room);
    PairPlaysAgain(a.world, squad, done.service.boards[room].winnerId);
    RoomLiveness.RematchIsBlocked(sv, room, s, Arena.Step(done, Finish(room)).world.rooms[a.world.nextRoom]);
    BoardOfNext(done.service, Arena.Step(done, Finish(room)).world.rooms[a.world.nextRoom]);
  }

  lemma RoomOfBoth(a: State, room: RoomId)
    requires Consistent(a) && room in a.service.boards
    ensures LiveRooms.Sane(a.service) && AllLinked(a.world) && a.service.nextRoom == a.world.nextRoom
    ensures room in a.world.rooms && a.service.boards[room].seats == a.world.rooms[room]
  {
  }

  lemma FinalizingIsCompleted(a: State, room: RoomId)
    requires Consistent(a) && room in a.service.finalizing
    ensures room in a.service.boards && a.service.boards[room].status == Match.Completed
    ensures a.service.nextRoom == a.world.nextRoom
  {
  }

  lemma BoardOfNext(sv: LiveRooms.Service, seats: Pairing)
    ensures sv.nextRoom in LiveRooms.Step(sv, LiveRooms.Open(seats)).boards
  {
  }

  lemma CurrentFinishes(w: World, squad: SquadId, room: RoomId, winnerId: Option<string>)
    requires AllLinked(w) && squad in w.hills && w.hills[squad].room == Some(room) && room in w.rooms
    requires w.rooms[room].player1.walletVerified || w.rooms[room].player2.walletVerified
    ensures Finished(w, room, winnerId) == EndSquadMatch(w, squad, winnerId)
  {
    assert SquadOf(w, room) == squad;
  }

  lemma FinishIs(a: State, squad: SquadId, room: RoomId)
    requires Consistent(a) && squad in a.world.hills && a.world.hills[squad].room == Some(room)
    requires room in a.service.boards && a.service.boards[room].status == Match.Completed && room in a.world.rooms
    requires a.world.rooms[room].player1.walletVerified || a.world.rooms[room].player2.walletVerified
    ensures
      var w', n := EndSquadMatch(a.world, squad, a.service.boards[room].winnerId), a.world.nextRoom;
      n in w'.rooms &&
      Arena.Step(a, Finish(room)) == State(w', LiveRooms.Step(a.service, LiveRooms.Open(w'.rooms[n])))
  {
    hide EndSquadMatch, AllUnique, ProperRooms, Dense, LiveRooms.Step, OpenUpTo, EndMatch, Finished;
    var w' := EndSquadMatch(a.world, squad, a.service.boards[room].winnerId);
    assert Linked(a.world.hills[squad], a.world.rooms);
    EndIsHillEnd(a.world, squad, a.service.boards[room].winnerId);
    EndSeats(a.world, squad, a.service.boards[room].winnerId);
    CurrentFinishes(a.world, squad, room, a.service.boards[room].winnerId);
    OpensOne(a.service, w'.rooms, w'.nextRoom);
  }
}
