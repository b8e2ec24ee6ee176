/** How squads stall: without forfeits, and with a new entry for every join, a squad's next room is blocked as soon as
    its challenger comes back from a finished match. */
module Stalling {
  import opened Wrappers
  import opened Players
  import opened KingOfTheHill
  import opened SquadWorld
  import opened Disconnects
  import opened LiveRooms
  import opened RoomLiveness
  import opened Arena
  import Match

  /** A completed room seats the entry. */
  ghost predicate HasFinished(sv: Service, p: PlayerState) {
    exists r :: r in sv.boards && sv.boards[r].status == Match.Completed && Seats(sv.boards[r].seats, p)
  }

  ghost predicate InPlay(sv: Service, p: PlayerState) {
    exists r :: r in sv.boards && sv.boards[r].status == Match.InProgress && Seats(sv.boards[r].seats, p)
  }

  ghost predicate HasSeat(sv: Service, p: PlayerState) {
    exists r :: r in sv.boards && Seats(sv.boards[r].seats, p)
  }

  /** The close is no forfeit. */
  predicate NoForfeit(w: World, socketId: string) {
    socketId in w.socketToSquad && w.socketToSquad[socketId] in w.hills ==>
      var h, closed := w.hills[w.socketToSquad[socketId]], On(w, socketId);
      SocketIndex(h.queue, closed) >= 0 || (!ChampionForfeits(h, closed) && !ChallengerForfeits(h, closed))
  }

  /** Joins bring new entries, rooms of matchmaking and invites seat no squad entry, and no close is a forfeit. */
  ghost predicate Calm(a: State, deed: Deed) {
    ProperDeed(deed) &&
    (deed.Ask? ==>
       match deed.request
       case JoinSquad(_, p, _) => p !in a.world.sockets && !HasSeat(a.service, p)
       case OtherRoom(seats) => seats.player1 !in a.world.sockets && seats.player2 !in a.world.sockets
       case Close(socketId) => NoForfeit(a.world, socketId)
       case _ => true)
  }

  ghost predicate AllCalm(a: State, deeds: seq<Deed>)
    decreases |deeds|
  {
    deeds != [] ==> Calm(a, deeds[0]) && AllCalm(Arena.Step(a, deeds[0]), deeds[1..])
  }

  /** No entry is held by two squads. */
  ghost predicate Apart(w: World) {
    forall s, t, p :: s in w.hills && t in w.hills && p in Roster(w.hills[s]) && p in Roster(w.hills[t]) ==> s == t
  }

  /** A squad entry plays in current rooms only. */
  ghost predicate OnlyCurrent(a: State) {
    forall r, p ::
      (r in a.service.boards && a.service.boards[r].status == Match.InProgress
       && p in a.world.sockets && Seats(a.service.boards[r].seats, p)) ==>
      IsCurrent(a.world, r)
  }

  /** A squad entry that is not playing carries a move exactly if it has finished a match. */
  ghost predicate MovesAreLeftOver(a: State) {
    forall p :: p in a.world.sockets && !InPlay(a.service, p) ==> (p in a.service.moves <==> HasFinished(a.service, p))
  }

  ghost predicate MovesAreSeated(sv: Service) {
    forall p :: p in sv.moves ==> HasSeat(sv, p)
  }

  ghost predicate Settled(a: State) {
    && Consistent(a) && Known(a.world) && Apart(a.world)
    && OnlyCurrent(a) && MovesAreLeftOver(a) && MovesAreSeated(a.service)
  }

  // ---------------------------------------------------------------------------------------------
  // The squads' side of a calm deed
  // ---------------------------------------------------------------------------------------------

  /** As a request: calm, or the notice of a room that is no longer in progress. */
  ghost predicate CalmRequest(w: World, request: Request) {
    request.Close? ==> NoForfeit(w, request.socketId)
  }

  predicate Ends(request: Request, room: RoomId) {
    request.Notice? && request.room == room
  }

  lemma CalmDrop(w: World, squad: SquadId, closed: set<PlayerState>)
    requires squad in w.hills
    requires
      var h := w.hills[squad];
      SocketIndex(h.queue, closed) >= 0 || (!ChampionForfeits(h, closed) && !ChallengerForfeits(h, closed))
    ensures
      var w' := DropFrom(w, squad, closed);
      && w'.hills.Keys == w.hills.Keys && w'.nextRoom == w.nextRoom
      && forall s :: s in w.hills ==> w'.hills[s].room == w.hills[s].room
  {
  }

  /** A calm request opens at most one room, and a squad loses its room only by a notice of it. */
  lemma CalmKeepsRooms(w: World, request: Request)
    requires AllLinked(w) && CalmRequest(w, request)
    ensures
      var w' := SquadWorld.Step(w, request);
      && w'.nextRoom <= w.nextRoom + 1
      && forall s, r :: s in w.hills && w.hills[s].room == Some(r) && !Ends(request, r) ==>
           s in w'.hills && w'.hills[s].room == Some(r)
  {
    match request
    case JoinSquad(squad, player, socketId) =>
      HillIsBusy(w, squad);
      if squad in w.hills { assert Linked(w.hills[squad], w.rooms); }
    case Close(socketId) =>
      if socketId in w.socketToSquad && w.socketToSquad[socketId] in w.hills {
        CalmDrop(w, w.socketToSquad[socketId], On(w, socketId));
      }
    case Notice(room, winnerId) =>
      if IsCurrent(w, room) { NoticeMovesOne(w, SquadOf(w, room), room, winnerId); }
    case _ =>
  }

  lemma NoticeMovesOne(w: World, squad: SquadId, room: RoomId, winnerId: Option<string>)
    requires AllLinked(w) && squad in w.hills && w.hills[squad].room == Some(room)
    ensures
      var w' := EndSquadMatch(w, squad, winnerId);
      && w'.nextRoom == w.nextRoom + 1
      && forall s :: s in w.hills && s != squad ==> s in w'.hills && w'.hills[s] == w.hills[s]
  {
    assert Linked(w.hills[squad], w.rooms);
    EndIsHillEnd(w, squad, winnerId);
  }

  lemma CalmKeepsCurrent(w: World, request: Request, r: RoomId)
    requires AllLinked(w) && CalmRequest(w, request) && IsCurrent(w, r) && !Ends(request, r)
    ensures IsCurrent(SquadWorld.Step(w, request), r)
  {
    hide SquadWorld.Step;
    CalmKeepsRooms(w, request);
    var s := SquadOf(w, r);
    assert SquadWorld.Step(w, request).hills[s].room == Some(r);
  }

  /** The room that a request of the squads opens is current. */
  lemma NewRoomIsCurrent(w: World, request: Request)
    requires AllLinked(w) && !request.OtherRoom? && SquadWorld.Step(w, request).nextRoom == w.nextRoom + 1
    ensures IsCurrent(SquadWorld.Step(w, request), w.nextRoom)
  {
    hide SquadWorld.Step;
    StepIsHillStep(w, request);
    var w' := SquadWorld.Step(w, request);
    if Subject(w, request).Some? {
      assert w'.hills[Subject(w, request).value].room == Some(w.nextRoom);
    } else {
      OthersOpenNothing(w, request);
    }
  }

  lemma OthersOpenNothing(w: World, request: Request)
    requires Subject(w, request).None? && !request.OtherRoom?
    ensures SquadWorld.Step(w, request).nextRoom == w.nextRoom
  {
  }

  /** Who is held afterwards was held there before, or has just joined. */
  lemma HeldBefore(w: World, request: Request, s: SquadId, p: PlayerState)
    requires AllUnique(w) && p in Roster(HillOf(SquadWorld.Step(w, request), s))
    ensures p in Roster(HillOf(w, s)) || (request.JoinSquad? && p == request.player && s == request.squad)
  {
    hide SquadWorld.Step, Roster, KingOfTheHill.Step;
    SquadHoldsIff(w, request, s, p);
  }

  lemma HeldIsKnown(w: World, s: SquadId, p: PlayerState)
    requires Known(w) && p in Roster(HillOf(w, s))
    ensures s in w.hills && p in w.sockets
  {
    EmptyHill();
  }

  lemma CalmKeepsApart(w: World, request: Request)
    requires AllUnique(w) && Known(w) && Apart(w) && (request.JoinSquad? ==> request.player !in w.sockets)
    ensures Apart(SquadWorld.Step(w, request))
  {
    hide SquadWorld.Step, Roster, Known;
    var w' := SquadWorld.Step(w, request);
    forall s, t, p | s in w'.hills && t in w'.hills && p in Roster(w'.hills[s]) && p in Roster(w'.hills[t])
      ensures s == t
    {
      HeldBefore(w, request, s, p);
      HeldBefore(w, request, t, p);
      if p in Roster(HillOf(w, s)) { HeldIsKnown(w, s, p); }
      if p in Roster(HillOf(w, t)) { HeldIsKnown(w, t, p); }
    }
  }

  // ---------------------------------------------------------------------------------------------
  // The rooms' side
  // ---------------------------------------------------------------------------------------------

  /** Rooms were opened, and nothing was played. */
  ghost predicate OnlyOpened(sv: Service, sv': Service) {
    && sv'.moves == sv.moves
    && (forall r :: r in sv.boards ==> r in sv'.boards && sv'.boards[r] == sv.boards[r])
    && (forall r :: r in sv'.boards && r !in sv.boards ==> sv'.boards[r].status == Match.InProgress)
  }

  lemma OpeningKeepsFinished(sv: Service, sv': Service, p: PlayerState)
    requires OnlyOpened(sv, sv')
    ensures HasFinished(sv', p) <==> HasFinished(sv, p)
    ensures InPlay(sv, p) ==> InPlay(sv', p)
    ensures HasSeat(sv, p) ==> HasSeat(sv', p)
  {
    if HasFinished(sv, p) {
      var r :| r in sv.boards && sv.boards[r].status == Match.Completed && Seats(sv.boards[r].seats, p);
      assert sv'.boards[r] == sv.boards[r];
    }
    if InPlay(sv, p) {
      var r :| r in sv.boards && sv.boards[r].status == Match.InProgress && Seats(sv.boards[r].seats, p);
      assert sv'.boards[r] == sv.boards[r];
    }
    if HasSeat(sv, p) {
      var r :| r in sv.boards && Seats(sv.boards[r].seats, p);
      assert sv'.boards[r] == sv.boards[r];
    }
  }

  lemma FinishedHasSeat(sv: Service, p: PlayerState)
    requires HasFinished(sv, p)
    ensures HasSeat(sv, p)
  {
  }

  lemma OpeningKeepsMoves(a: State, a': State)
    requires MovesAreLeftOver(a) && MovesAreSeated(a.service) && OnlyOpened(a.service, a'.service)
    requires forall p :: p in a'.world.sockets ==> p in a.world.sockets || !HasSeat(a.service, p)
    ensures MovesAreLeftOver(a') && MovesAreSeated(a'.service)
  {
    forall p | p in a'.world.sockets && !InPlay(a'.service, p)
      ensures p in a'.service.moves <==> HasFinished(a'.service, p)
    {
      OpeningKeepsFinished(a.service, a'.service, p);
      if HasFinished(a.service, p) { FinishedHasSeat(a.service, p); }
    }
    forall p | p in a'.service.moves ensures HasSeat(a'.service, p) {
      OpeningKeepsFinished(a.service, a'.service, p);
    }
  }

  /** One board changed its score, or was completed with both moves set. */
  lemma PlayKeepsMoves(a: State, room: RoomId, s: Match.Submission)
    requires Consistent(a) && MovesAreLeftOver(a) && MovesAreSeated(a.service) && OnlyCurrent(a)
    ensures
      var a' := Arena.Step(a, Submit(room, s));
      MovesAreLeftOver(a') && MovesAreSeated(a'.service) && OnlyCurrent(a')
  {
    hide Sane, AllLinked, AllUnique, Dense, Match.Next, Match.Submit;
    var a' := Arena.Step(a, Submit(room, s));
    if room in a.service.boards {
      BoardsAreProper(a, room);
      PlayIsNext(a.service, room, s);
      NextKeepsPlayers(LiveRooms.View(a.service, room), s);
      if Match.Submit(LiveRooms.View(a.service, room), s).Rejected? {
        assert a'.service == a.service;
      } else {
        AcceptedPlay(a, room, s);
      }
    }
  }

  lemma BoardsAreProper(a: State, room: RoomId)
    requires Consistent(a) && room in a.service.boards
    ensures a.service.boards[room].seats.player1 != a.service.boards[room].seats.player2
  {
  }

  lemma AcceptedIsInProgress(r: Match.Room, s: Match.Submission)
    requires Match.Submit(r, s).Accepted?
    ensures r.status == Match.InProgress
    ensures Match.Next(r, s).status == Match.Completed ==> Match.Next(r, s).move1.Some? && Match.Next(r, s).move2.Some?
  {
  }

  lemma AcceptedPlay(a: State, room: RoomId, s: Match.Submission)
    requires Consistent(a) && MovesAreLeftOver(a) && MovesAreSeated(a.service) && OnlyCurrent(a)
    requires room in a.service.boards && Match.Submit(LiveRooms.View(a.service, room), s).Accepted?
    ensures
      var a' := Arena.Step(a, Submit(room, s));
      MovesAreLeftOver(a') && MovesAreSeated(a'.service) && OnlyCurrent(a')
  {
    hide Sane, AllLinked, AllUnique, Dense, Match.Next, Match.Submit, Consistent;
    var sv, sv' := a.service, Arena.Step(a, Submit(room, s)).service;
    BoardsAreProper(a, room);
    PlayIsNext(sv, room, s);
    NextKeepsPlayers(LiveRooms.View(sv, room), s);
    AcceptedIsInProgress(LiveRooms.View(sv, room), s);
    forall p | p in a.world.sockets && !InPlay(sv', p) ensures p in sv'.moves <==> HasFinished(sv', p) {
      PlayOf(sv, sv', room, p);
    }
    forall p | p in sv'.moves ensures HasSeat(sv', p) {
      SeatsStay(sv, sv', room, p);
    }
  }

  /** What a submission to a room in progress does to one player. */
  ghost predicate PlayedIn(sv: Service, sv': Service, room: RoomId) {
    && sv'.boards.Keys == sv.boards.Keys && room in sv.boards && sv'.boards[room].seats == sv.boards[room].seats
    && (forall other :: other in sv.boards && other != room ==> sv'.boards[other] == sv.boards[other])
    && sv.boards[room].status == Match.InProgress && sv'.boards[room].status in {Match.InProgress, Match.Completed}
    && (sv'.boards[room].status == Match.Completed ==>
          sv'.boards[room].seats.player1 in sv'.moves && sv'.boards[room].seats.player2 in sv'.moves)
  }

  lemma PlayOf(sv: Service, sv': Service, room: RoomId, p: PlayerState)
    requires PlayedIn(sv, sv', room) && !InPlay(sv', p)
    requires !Seats(sv.boards[room].seats, p) ==> (p in sv'.moves <==> p in sv.moves)
    ensures Seats(sv.boards[room].seats, p) ==> p in sv'.moves && HasFinished(sv', p)
    ensures !Seats(sv.boards[room].seats, p) ==> !InPlay(sv, p) && (HasFinished(sv', p) <==> HasFinished(sv, p))
  {
    if Seats(sv.boards[room].seats, p) {
      assert sv'.boards[room].status == Match.Completed;
    } else {
      forall r | r in sv.boards && Seats(sv.boards[r].seats, p) ensures sv'.boards[r] == sv.boards[r] {
      }
      forall r | r in sv'.boards && Seats(sv'.boards[r].seats, p) ensures sv'.boards[r] == sv.boards[r] {
      }
    }
  }

  lemma SeatsStay(sv: Service, sv': Service, room: RoomId, p: PlayerState)
    requires PlayedIn(sv, sv', room) && p in sv'.moves
    requires !Seats(sv.boards[room].seats, p) ==> p in sv.moves
    requires p in sv.moves ==> HasSeat(sv, p)
    ensures HasSeat(sv', p)
  {
    if Seats(sv.boards[room].seats, p) {
      assert Seats(sv'.boards[room].seats, p);
    } else {
      var r :| r in sv.boards && Seats(sv.boards[r].seats, p);
      assert Seats(sv'.boards[r].seats, p);
    }
  }

  // ---------------------------------------------------------------------------------------------
  // Every calm run
  // ---------------------------------------------------------------------------------------------

  lemma CalmAsRequest(a: State, deed: Deed)
    requires Calm(a, deed) && RequestOf(a, deed).Some?
    ensures
      var request := RequestOf(a, deed).value;
      && CalmRequest(a.world, request) && ProperDeed(Ask(request))
      && (request.JoinSquad? ==> request.player !in a.world.sockets && !HasSeat(a.service, request.player))
      && (request.OtherRoom? ==>
            request.seats.player1 !in a.world.sockets && request.seats.player2 !in a.world.sockets)
      && (request.Notice? ==> request.room in a.service.finalizing)
  {
  }

  /** The service after a deed other than a submission. */
  lemma DeedOpens(a: State, deed: Deed)
    requires Consistent(a) && ProperDeed(deed) && !deed.Submit?
    ensures OnlyOpened(a.service, Arena.Step(a, deed).service)
    ensures forall r :: r in Arena.Step(a, deed).service.boards && r !in a.service.boards ==>
      a.world.nextRoom <= r < Arena.Step(a, deed).world.nextRoom
  {
    hide AllLinked, AllUnique, SquadWorld.Step, Sane, ProperRooms;
    WorldAfterIs(a, deed);
    if RequestOf(a, deed).Some? {
      WorldStaysConsistent(a.world, RequestOf(a, deed).value);
      WithWorldIs(a, WorldAfter(a, deed));
      assert Arena.Step(a, deed) == WithWorld(a, WorldAfter(a, deed));
    } else {
      SameWorld(a);
    }
  }

  lemma NotEnded(a: State, request: Request, r: RoomId)
    requires Consistent(a) && r in a.service.boards && a.service.boards[r].status == Match.InProgress
    requires request.Notice? ==> request.room in a.service.finalizing
    ensures !Ends(request, r)
  {
  }

  lemma DeedKeepsOnlyCurrent(a: State, deed: Deed, r: RoomId, p: PlayerState)
    requires Consistent(a) && OnlyCurrent(a) && Calm(a, deed) && RequestOf(a, deed).Some?
    requires
      var a' := Arena.Step(a, deed);
      && r in a'.service.boards && a'.service.boards[r].status == Match.InProgress
      && p in a'.world.sockets && Seats(a'.service.boards[r].seats, p)
    ensures IsCurrent(Arena.Step(a, deed).world, r)
  {
    hide SquadWorld.Step, AllLinked, AllUnique, Sane, Dense, ProperRooms, IsCurrent;
    var request, a' := RequestOf(a, deed).value, Arena.Step(a, deed);
    CalmAsRequest(a, deed);
    WorldAfterIs(a, deed);
    StepKeepsConsistent(a, deed);
    StepOfSockets(a.world, request);
    DeedOpens(a, deed);
    CalmKeepsRooms(a.world, request);
    if r in a.service.boards {
      NotEnded(a, request, r);
      OldSeats(a, request, r, p);
      CalmKeepsCurrent(a.world, request, r);
    } else {
      if request.OtherRoom? { OtherSeats(a, request, a'); }
      NewRoomIsCurrent(a.world, request);
    }
  }

  lemma OldSeats(a: State, request: Request, r: RoomId, p: PlayerState)
    requires r in a.service.boards && Seats(a.service.boards[r].seats, p)
    requires request.JoinSquad? ==> !HasSeat(a.service, request.player)
    requires p in SquadWorld.Step(a.world, request).sockets
    ensures p in a.world.sockets
  {
    StepOfSockets(a.world, request);
  }

  /** Rooms of matchmaking and invites seat no squad entry. */
  lemma OtherSeats(a: State, request: Request, a': State)
    requires request.OtherRoom? && a'.world == SquadWorld.Step(a.world, request) && Synced(a')
    requires request.seats.player1 !in a.world.sockets && request.seats.player2 !in a.world.sockets
    ensures a.world.nextRoom in a'.service.boards && a'.world.sockets == a.world.sockets
    ensures forall p :: p in a'.world.sockets ==> !Seats(a'.service.boards[a.world.nextRoom].seats, p)
  {
  }

  lemma CalmKeepsKnownAndApart(a: State, deed: Deed)
    requires Consistent(a) && Known(a.world) && Apart(a.world) && Calm(a, deed)
    ensures Known(WorldAfter(a, deed)) && Apart(WorldAfter(a, deed))
  {
    hide SquadWorld.Step, AllLinked, AllUnique, Sane, Dense, ProperRooms, Known, Apart;
    WorldAfterIs(a, deed);
    if RequestOf(a, deed).Some? {
      var request := RequestOf(a, deed).value;
      CalmAsRequest(a, deed);
      StepKeepsKnown(a.world, request);
      CalmKeepsApart(a.world, request);
    }
  }

  lemma WorldDeedKeepsMoves(a: State, deed: Deed)
    requires Settled(a) && Calm(a, deed) && RequestOf(a, deed).Some?
    ensures MovesAreLeftOver(Arena.Step(a, deed)) && MovesAreSeated(Arena.Step(a, deed).service)
  {
    hide SquadWorld.Step, AllLinked, AllUnique, Sane, Dense, ProperRooms, Known, Apart, OnlyCurrent;
    var request, a' := RequestOf(a, deed).value, Arena.Step(a, deed);
    CalmAsRequest(a, deed);
    WorldAfterIs(a, deed);
    StepKeepsConsistent(a, deed);
    StepOfSockets(a.world, request);
    DeedOpens(a, deed);
    OpeningKeepsMoves(a, a');
  }

  lemma StepKeepsSettled(a: State, deed: Deed)
    requires Settled(a) && Calm(a, deed)
    ensures Settled(Arena.Step(a, deed))
  {
    hide Consistent, Known, Apart, MovesAreLeftOver, MovesAreSeated, WorldAfter, RequestOf, Calm;
    ProperOfCalm(a, deed);
    StepKeepsConsistent(a, deed);
    CalmKeepsKnownAndApart(a, deed);
    if deed.Submit? {
      PlayKeepsMoves(a, deed.room, deed.submission);
    } else if RequestOf(a, deed).Some? {
      WorldDeedKeepsMoves(a, deed);
      var a' := Arena.Step(a, deed);
      forall r, p | r in a'.service.boards && a'.service.boards[r].status == Match.InProgress
                    && p in a'.world.sockets && Seats(a'.service.boards[r].seats, p)
        ensures IsCurrent(a'.world, r)
      {
        DeedKeepsOnlyCurrent(a, deed, r, p);
      }
    } else {
      NothingAsked(a, deed);
    }
  }

  lemma ProperOfCalm(a: State, deed: Deed)
    requires Calm(a, deed)
    ensures ProperDeed(deed)
  {
  }

  lemma NothingAsked(a: State, deed: Deed)
    requires Consistent(a) && !deed.Submit? && RequestOf(a, deed).None?
    ensures Arena.Step(a, deed) == a
  {
    SameWorld(a);
  }

  lemma {:induction false} RunKeepsSettled(a: State, deeds: seq<Deed>)
    requires Settled(a) && AllCalm(a, deeds)
    ensures Settled(Arena.Run(a, deeds))
    decreases |deeds|
  {
    if deeds != [] {
      StepKeepsSettled(a, deeds[0]);
      RunKeepsSettled(Arena.Step(a, deeds[0]), deeds[1..]);
    }
  }

  lemma SettledFromNothing(deeds: seq<Deed>)
    requires AllCalm(NOTHING_YET, deeds)
    ensures Settled(Arena.Run(NOTHING_YET, deeds))
  {
    RunKeepsSettled(NOTHING_YET, deeds);
  }

  // ---------------------------------------------------------------------------------------------
  // The room after a match end
  // ---------------------------------------------------------------------------------------------

  /** A room in progress that seats a held entry is the room of its squad. */
  lemma PlaysInOwnSquad(a: State, squad: SquadId, p: PlayerState, r: RoomId)
    requires Settled(a) && squad in a.world.hills && p in Roster(a.world.hills[squad])
    requires r in a.service.boards && a.service.boards[r].status == Match.InProgress
    requires Seats(a.service.boards[r].seats, p)
    ensures a.world.hills[squad].room == Some(r)
  {
    hide Roster, MovesAreLeftOver, MovesAreSeated, AllUnique, Sane, Dense, ProperRooms;
    assert p in a.world.sockets;
    assert IsCurrent(a.world, r);
    var s := SquadOf(a.world, r);
    assert Linked(a.world.hills[s], a.world.rooms);
    SlotsAreHeld(a.world.hills[s]);
  }

  /** A held entry whose squad has no room in progress is not playing anywhere. */
  lemma RestsBetweenRooms(a: State, squad: SquadId, room: RoomId, p: PlayerState)
    requires Settled(a) && squad in a.world.hills && a.world.hills[squad].room == Some(room)
    requires room in a.service.finalizing && p in Roster(a.world.hills[squad])
    ensures p in a.world.sockets && !InPlay(a.service, p)
  {
    hide Roster, MovesAreLeftOver, MovesAreSeated, AllUnique;
    if InPlay(a.service, p) {
      var r :| r in a.service.boards && a.service.boards[r].status == Match.InProgress
               && Seats(a.service.boards[r].seats, p);
      PlaysInOwnSquad(a, squad, p, r);
    }
  }

  lemma SlotsAreHeld(h: Hill)
    ensures h.champion.Some? ==> h.champion.value in Roster(h)
    ensures h.challenger.Some? ==> h.challenger.value in Roster(h)
  {
  }

  lemma FinishOpens(a: State, squad: SquadId, room: RoomId)
    requires Consistent(a) && squad in a.world.hills && a.world.hills[squad].room == Some(room)
    requires room in a.service.finalizing && room in a.world.rooms
    requires a.world.rooms[room].player1.walletVerified || a.world.rooms[room].player2.walletVerified
    ensures
      var a', n := Arena.Step(a, Finish(room)), a.world.nextRoom;
      var h := EndMatch(a.world.hills[squad], a.service.boards[room].winnerId);
      && squad in a'.world.hills && a'.world.hills[squad] == h.(room := Some(n)) && CanEnd(h)
      && n in a'.service.boards && a'.service.boards[n] == NewBoard(Pairing(h.champion.value, h.challenger.value))
      && OnlyOpened(a.service, a'.service) && Consistent(a')
  {
    hide EndMatch, Sane, AllUnique, Dense, ProperRooms;
    var a', winnerId := Arena.Step(a, Finish(room)), a.service.boards[room].winnerId;
    WinnerStays(a, squad, room);
    StepKeepsConsistent(a, Finish(room));
    DeedOpens(a, Finish(room));
    assert SquadOf(a.world, room) == squad;
    EndIsHillEnd(a.world, squad, winnerId);
    EndSeats(a.world, squad, winnerId);
    NewBoardOf(a, Finish(room));
  }

  lemma NewBoardOf(a: State, deed: Deed)
    requires Consistent(a) && ProperDeed(deed) && RequestOf(a, deed).Some?
    ensures
      var a' := Arena.Step(a, deed);
      forall r :: a.world.nextRoom <= r < a'.world.nextRoom ==>
        r in a'.service.boards && r in a'.world.rooms && a'.service.boards[r] == NewBoard(a'.world.rooms[r])
  {
    hide AllLinked, AllUnique, SquadWorld.Step, Sane, ProperRooms;
    WorldAfterIs(a, deed);
    WorldStaysConsistent(a.world, RequestOf(a, deed).value);
    WithWorldIs(a, WorldAfter(a, deed));
    assert Arena.Step(a, deed) == WithWorld(a, WorldAfter(a, deed));
  }

  /** Over every calm run: the room that follows the match end of a squad of any size is blocked from the start if and
      only if its challenger has already finished a match with this entry. */
  lemma NextRoomIsBlockedIff(a: State, squad: SquadId, room: RoomId)
    requires Settled(a) && squad in a.world.hills && a.world.hills[squad].room == Some(room)
    requires room in a.service.finalizing && room in a.world.rooms
    requires a.world.rooms[room].player1.walletVerified || a.world.rooms[room].player2.walletVerified
    ensures
      var a', n := Arena.Step(a, Finish(room)), a.world.nextRoom;
      && squad in a'.world.hills && a'.world.hills[squad].room == Some(n) && a'.world.hills[squad].challenger.Some?
      && n in a'.service.boards
      && (Blocked(a'.service, n) <==> HasFinished(a.service, a'.world.hills[squad].challenger.value))
  {
    hide EndMatch, Roster, Sane, Order, Apart, Known, OnlyCurrent, Arena.Step, AllLinked, AllUnique, Dense, ProperRooms;
    var h, n := a.world.hills[squad], a.world.nextRoom;
    var h' := EndMatch(h, a.service.boards[room].winnerId);
    FinishOpens(a, squad, room);
    EndConserves(h, a.service.boards[room].winnerId) by { WinnerStays(a, squad, room); }
    SlotsAreHeld(h');
    RestsBetweenRooms(a, squad, room, h'.champion.value);
    RestsBetweenRooms(a, squad, room, h'.challenger.value);
    ChampionHasFinished(a, squad, room);
    var sv' := Arena.Step(a, Finish(room)).service;
    ShapedOf(Arena.Step(a, Finish(room)));
    BlockedIff(sv', n);
  }

  lemma ShapedOf(a: State)
    requires Consistent(a)
    ensures Shaped(a.service)
  {
  }

  /** The next champion has just won a match. */
  lemma ChampionHasFinished(a: State, squad: SquadId, room: RoomId)
    requires Consistent(a) && squad in a.world.hills && a.world.hills[squad].room == Some(room)
    requires room in a.service.finalizing && room in a.service.boards
    ensures
      var h' := EndMatch(a.world.hills[squad], a.service.boards[room].winnerId);
      h'.champion.Some? && HasFinished(a.service, h'.champion.value)
  {
    hide AllUnique, Dense, ProperRooms, EndMatch;
    var h := a.world.hills[squad];
    assert Linked(h, a.world.rooms);
    WinnerStays(a, squad, room);
    var h' := EndMatch(h, a.service.boards[room].winnerId);
    EndRestarts(h, a.service.boards[room].winnerId);
    assert Order(h')[0] == h'.champion.value;
    assert a.service.boards[room].status == Match.Completed && Seats(a.service.boards[room].seats, h'.champion.value);
  }

  // ---------------------------------------------------------------------------------------------
  // A stalled squad
  // ---------------------------------------------------------------------------------------------

  /** The squad's room is blocked. */
  ghost predicate Stalled(a: State, squad: SquadId, room: RoomId) {
    && squad in a.world.hills && a.world.hills[squad].room == Some(room)
    && room in a.service.boards && Blocked(a.service, room)
  }

  lemma StalledIsUndisturbed(a: State, squad: SquadId, room: RoomId, other: RoomId, s: Match.Submission)
    requires Settled(a) && Stalled(a, squad, room)
    ensures !Disturbs(a.service, Play(other, s), room)
  {
    hide Roster, MovesAreLeftOver, MovesAreSeated, AllUnique, Sane, Dense, ProperRooms, Blocked;
    if Disturbs(a.service, Play(other, s), room) {
      assert Linked(a.world.hills[squad], a.world.rooms);
      SlotsAreHeld(a.world.hills[squad]);
      AcceptedIsInProgress(LiveRooms.View(a.service, other), s);
      var seats, seats' := a.service.boards[room].seats, a.service.boards[other].seats;
      var p := if Seats(seats, seats'.player1) then seats'.player1 else seats'.player2;
      PlaysInOwnSquad(a, squad, p, other);
    }
  }

  lemma PlayKeepsStalled(a: State, squad: SquadId, room: RoomId, other: RoomId, s: Match.Submission)
    requires Settled(a) && Stalled(a, squad, room)
    ensures Stalled(Arena.Step(a, Submit(other, s)), squad, room)
  {
    hide Settled, LiveRooms.Step, Disturbs, Blocked, Shaped;
    ConsistentOfSettled(a);
    ShapedOf(a);
    StalledIsUndisturbed(a, squad, room, other, s);
    PlayKeepsBlocked(a.service, room, other, s);
  }

  lemma PlayKeepsBlocked(sv: Service, room: RoomId, other: RoomId, s: Match.Submission)
    requires Shaped(sv) && room in sv.boards && Blocked(sv, room) && !Disturbs(sv, Play(other, s), room)
    ensures room in LiveRooms.Step(sv, Play(other, s)).boards && Blocked(LiveRooms.Step(sv, Play(other, s)), room)
  {
    if other == room {
      PlayIsNext(sv, room, s);
    } else {
      assert [Play(other, s)][0] == Play(other, s);
      StepOfOthers(sv, Play(other, s), room);
      SameViewIsBlocked(sv, LiveRooms.Step(sv, Play(other, s)), room);
    }
  }

  lemma SameViewIsBlocked(sv: Service, sv': Service, room: RoomId)
    requires room in sv.boards && room in sv'.boards && LiveRooms.View(sv', room) == LiveRooms.View(sv, room)
    requires Blocked(sv, room)
    ensures Blocked(sv', room)
  {
    assert LiveRooms.View(sv', room).status == sv'.boards[room].status;
  }

  lemma ConsistentOfSettled(a: State)
    requires Settled(a)
    ensures Consistent(a)
  {
  }

  lemma DeedKeepsStalled(a: State, deed: Deed, squad: SquadId, room: RoomId)
    requires Settled(a) && Calm(a, deed) && RequestOf(a, deed).Some? && Stalled(a, squad, room)
    ensures Stalled(Arena.Step(a, deed), squad, room)
  {
    hide SquadWorld.Step, AllLinked, AllUnique, Sane, Dense, ProperRooms, Settled;
    ConsistentOfSettled(a);
    var request := RequestOf(a, deed).value;
    CalmAsRequest(a, deed);
    WorldAfterIs(a, deed);
    StepKeepsConsistent(a, deed);
    DeedOpens(a, deed);
    NotEnded(a, request, room);
    CalmKeepsRooms(a.world, request);
    assert a.world.hills[squad].room == Some(room) && !Ends(request, room);
    SameViewIsBlocked(a.service, Arena.Step(a, deed).service, room);
  }

  /** Once its room is blocked, a squad is stuck with it over every calm run: no submission, join, leave, close,
      reconnect or other room frees it. */
  lemma {:induction false} StalledForever(a: State, deeds: seq<Deed>, squad: SquadId, room: RoomId)
    requires Settled(a) && AllCalm(a, deeds) && Stalled(a, squad, room)
    ensures Stalled(Arena.Run(a, deeds), squad, room)
    decreases |deeds|
  {
    hide Settled, Stalled, Calm;
    if deeds != [] {
      var deed := deeds[0];
      ConsistentOfSettled(a);
      if deed.Submit? {
        PlayKeepsStalled(a, squad, room, deed.room, deed.submission);
      } else if RequestOf(a, deed).Some? {
        DeedKeepsStalled(a, deed, squad, room);
      } else {
        NothingAsked(a, deed);
      }
      StepKeepsSettled(a, deed);
      StalledForever(Arena.Step(a, deed), deeds[1..], squad, room);
    }
  }
}
