/** The squad gateway object: its two maps and the mutable state of each squad, proved to take exactly the steps of
    `SquadWorld`.  Emits and broadcasts are left out; a membership lookup and the wallet flag are parameters. */
module SquadGateway {
  import opened Wrappers
  import opened GameService
  import opened Lists
  import opened Players
  import opened KingOfTheHill
  import opened SquadWorld
  import Match

  class SquadGameState {
    var champion: Option<PlayerState>
    var challenger: Option<PlayerState>
    var queue: seq<PlayerState>
    var currentRoomId: Option<RoomId>
    var isMatchInProgress: bool

    constructor ()
      ensures View() == EMPTY
    {
      champion, challenger, queue, currentRoomId, isMatchInProgress := None, None, [], None, false;
    }

    function View(): Hill
      reads this
    {
      Hill(champion, challenger, queue, currentRoomId, isMatchInProgress)
    }
  }

  class SquadGateway {
    const game: GameService
    var squadGameStates: map<SquadId, SquadGameState>
    var socketToSquad: map<string, SquadId>
    /** Every queue entry that was made. */
    ghost var players: set<PlayerState>

    constructor (game: GameService)
      requires game.Valid()
      ensures Valid() && this.game == game && squadGameStates == map[] && socketToSquad == map[] && players == {}
    {
      this.game, squadGameStates, socketToSquad, players := game, map[], map[], {};
    }

    ghost function Hills(): map<SquadId, Hill>
      reads this`squadGameStates, squadGameStates.Values
    {
      map s | s in squadGameStates :: squadGameStates[s].View()
    }

    ghost function Rooms(): map<RoomId, Pairing>
      reads game`rooms
    {
      map r | r in game.rooms :: Pairing(game.rooms[r].player1, game.rooms[r].player2)
    }

    ghost function Sockets(): map<PlayerState, string>
      reads this`players, players`socketId
    {
      map p | p in players :: p.socketId
    }

    /** The gateway and the room table as one value. */
    ghost function View(): World
      reads this, game, squadGameStates.Values, players
    {
      World(Hills(), Rooms(), game.nextRoom, socketToSquad, Sockets())
    }

    /** Squads do not share a state object. */
    ghost predicate Valid()
      reads this, game
    {
      && game.Valid()
      && (forall s, t :: s in squadGameStates && t in squadGameStates && s != t ==>
        squadGameStates[s] != squadGameStates[t])
    }

    ghost function States(): set<SquadGameState>
      reads this
    {
      squadGameStates.Values
    }

    /** Footprint of an event of one squad. */
    ghost function StateOf(squadId: SquadId): set<SquadGameState>
      reads this
    {
      if squadId in squadGameStates then {squadGameStates[squadId]} else {}
    }

    twostate lemma OneHillChanged(squadId: SquadId)
      requires squadGameStates == old(squadGameStates) && squadId in squadGameStates && Valid()
      requires forall s :: s in squadGameStates && s != squadId ==>
        old(squadGameStates[s].View()) == squadGameStates[s].View()
      ensures Hills() == old(Hills())[squadId := squadGameStates[squadId].View()]
    {
    }

    lemma HillIsView(squadId: SquadId)
      ensures squadId in View().hills <==> squadId in squadGameStates
      ensures squadId in squadGameStates ==> View().hills[squadId] == squadGameStates[squadId].View()
    {
    }

    method StartSquadMatch(state: SquadGameState)
      requires game.Valid() && state.champion.Some? && state.challenger.Some?
      modifies game`rooms, game`nextRoom, state`isMatchInProgress, state`currentRoomId
      ensures game.Valid() && game.nextRoom == old(game.nextRoom) + 1
      ensures state.isMatchInProgress && state.currentRoomId == Some(old(game.nextRoom))
      ensures Rooms() == old(Rooms())[old(game.nextRoom) := Pairing(state.champion.value, state.challenger.value)]
    {
      state.isMatchInProgress := true;
      var room := game.CreateRoom(state.champion.value, state.challenger.value);
      state.currentRoomId := Some(room.roomId);
    }

    /** The shifts from the queue into the slots; tells whether a match can start. */
    method FillSlots(state: SquadGameState) returns (starts: bool)
      modifies state
      ensures starts <==> Starts(old(state.View()))
      ensures state.View() == if starts then TryStart(old(state.View())).(inProgress := false) else old(state.View())
    {
      starts := false;
      if state.isMatchInProgress { return; }
      if state.champion.None? && |state.queue| >= 2 {
        state.champion := Some(state.queue[0]);
        state.challenger := Some(state.queue[1]);
        state.queue := state.queue[2..];
        starts := true;
      } else if state.champion.Some? && |state.queue| >= 1 {
        state.challenger := Some(state.queue[0]);
        state.queue := state.queue[1..];
        starts := true;
      }
    }

    method TryStartMatch(squadId: SquadId)
      requires Valid() && squadId in squadGameStates
      modifies game`rooms, game`nextRoom, squadGameStates[squadId]
      ensures Valid() && View() == StartMatch(old(View()), squadId)
    {
      hide Hills, Rooms, Sockets, GameService.Valid, TryStart, Starts, StartMatch, CanEnd;
      ghost var before := View();
      var state := squadGameStates[squadId];
      HillIsView(squadId);
      TryStartSeats(state.View());
      var starts := FillSlots(state);
      if starts { StartSquadMatch(state); }
      OneHillChanged(squadId);
      assert Sockets() == before.sockets;
      StartMatchWrites(before, squadId, state.View(), Rooms(), game.nextRoom);
    }

    lemma StartMatchWrites(w: World, squad: SquadId, h: Hill, rooms: map<RoomId, Pairing>, nextRoom: RoomId)
      requires squad in w.hills
      requires Starts(w.hills[squad]) ==>
        && h == TryStart(w.hills[squad]).(room := Some(w.nextRoom)) && CanEnd(h)
        && rooms == w.rooms[w.nextRoom := Pairing(h.champion.value, h.challenger.value)] && nextRoom == w.nextRoom + 1
      requires !Starts(w.hills[squad]) ==> h == w.hills[squad] && rooms == w.rooms && nextRoom == w.nextRoom
      ensures StartMatch(w, squad) == w.(hills := w.hills[squad := h], rooms := rooms, nextRoom := nextRoom)
    {
    }

    lemma TryStartSeats(h: Hill)
      ensures Starts(h) ==> CanEnd(TryStart(h)) && TryStart(h).inProgress
      ensures !Starts(h) ==> TryStart(h) == h
    {
    }

    /** Returns the new queue entry, or nothing when the join is refused. */
    method HandleJoinQueue(squadId: SquadId, userId: UserId, socketId: string, isMember: bool, walletVerified: bool)
      returns (entry: Option<PlayerState>)
      requires Valid()
      modifies this`squadGameStates, this`socketToSquad, this`players, game`rooms, game`nextRoom, StateOf(squadId)
      ensures Valid()
      ensures entry.Some? <==> isMember && !Taking(old(View()), squadId, userId)
      ensures entry.None? ==> View() == old(View())
      ensures entry.Some? ==>
        && fresh(entry.value) && entry.value.userId == userId && entry.value.socketId == socketId
        && entry.value.walletVerified == walletVerified && entry.value.move.None?
        && View() == Enter(old(View()), squadId, entry.value, socketId)
    {
      hide Hills, Rooms, Sockets, GameService.Valid, Enter, StartMatch, WithHill;
      entry := None;
      if !isMember { return; }
      ghost var before := View();
      if squadId in squadGameStates { HillIsView(squadId); }
      EnsureSquad(squadId);
      var state := squadGameStates[squadId];
      HillIsView(squadId);
      var alreadyQueued := exists i :: 0 <= i < |state.queue| && state.queue[i].userId == userId;
      if alreadyQueued || IsUser(state.champion, userId) || IsUser(state.challenger, userId) {
        return;
      }
      ghost var ensured := View();
      var player := Admit(squadId, userId, socketId, walletVerified);
      EnterIsStart(before, ensured, squadId, player, socketId);
      entry := Some(player);
    }

    /** Puts a new entry at the end of the queue and tries to start a match. */
    method Admit(squadId: SquadId, userId: UserId, socketId: string, walletVerified: bool)
      returns (player: PlayerState)
      requires Valid() && squadId in squadGameStates
      modifies this`socketToSquad, this`players, game`rooms, game`nextRoom, squadGameStates[squadId]
      ensures Valid() && fresh(player) && player.userId == userId && player.socketId == socketId
      ensures player.walletVerified == walletVerified && player.move.None?
      ensures
        var known := old(View()).(sockets := old(Sockets())[player := socketId]);
        var h := known.hills[squadId];
        View() == StartMatch(WithHill(known, squadId, h.(queue := h.queue + [player])).(
                               socketToSquad := old(socketToSquad)[socketId := squadId]), squadId)
    {
      hide StartMatch;
      player := new PlayerState(userId, socketId, walletVerified);
      players := players + {player};
      ghost var known := old(View()).(sockets := old(Sockets())[player := socketId]);
      assert Sockets() == known.sockets && Hills() == known.hills;
      assert View() == known;
      ReplaceQueue(squadId, squadGameStates[squadId].queue + [player], socketToSquad[socketId := squadId]);
      TryStartMatch(squadId);
    }

    lemma EnterIsStart(before: World, ensured: World, squadId: SquadId, player: PlayerState, socketId: string)
      requires !Taking(before, squadId, player.userId)
      requires ensured == Ensured(before, squadId)
      ensures
        var h := ensured.hills[squadId];
        var known := ensured.(sockets := ensured.sockets[player := socketId]);
        Enter(before, squadId, player, socketId) ==
          StartMatch(WithHill(known, squadId, h.(queue := h.queue + [player])).(
                       socketToSquad := before.socketToSquad[socketId := squadId]), squadId)
    {
      var h := ensured.hills[squadId].(queue := ensured.hills[squadId].queue + [player]);
      assert ensured.hills[squadId := h] == before.hills[squadId := h];
    }

    ghost function Ensured(w: World, squadId: SquadId): World {
      w.(hills := if squadId in w.hills then w.hills else w.hills[squadId := EMPTY])
    }

    /** Writes a queue and the socket map. */
    method ReplaceQueue(squadId: SquadId, queue: seq<PlayerState>, sockets: map<string, SquadId>)
      requires Valid() && squadId in squadGameStates
      modifies this`socketToSquad, squadGameStates[squadId]
      ensures Valid()
      ensures View() == WithHill(old(View()), squadId,
        old(View()).hills[squadId].(queue := queue)).(socketToSquad := sockets)
    {
      hide Hills, Rooms, Sockets, GameService.Valid;
      ghost var before := View();
      assert before.hills[squadId] == squadGameStates[squadId].View() by { HillIsView(squadId); }
      squadGameStates[squadId].queue := queue;
      socketToSquad := sockets;
      OneHillChanged(squadId);
    }

    method EnsureSquad(squadId: SquadId)
      requires Valid()
      modifies this`squadGameStates
      ensures Valid() && squadId in squadGameStates
      ensures squadId in old(squadGameStates) ==> squadGameStates == old(squadGameStates)
      ensures squadId !in old(squadGameStates) ==>
        fresh(squadGameStates[squadId]) && squadGameStates[squadId].View() == EMPTY
      ensures View() == Ensured(old(View()), squadId)
    {
      if squadId !in squadGameStates {
        var created := new SquadGameState();
        squadGameStates := squadGameStates[squadId := created];
      }
      assert Hills() == Ensured(old(View()), squadId).hills;
    }

    method HandleLeaveQueue(squadId: SquadId, userId: string, socketId: string)
      requires Valid()
      modifies this`socketToSquad, StateOf(squadId)
      ensures Valid() && View() == Quit(old(View()), squadId, userId, socketId)
    {
      if squadId !in squadGameStates { return; }
      ReplaceQueue(squadId, Without(squadGameStates[squadId].queue, userId), socketToSquad - {socketId});
    }

    /** The slot changes at the end of a match. */
    method RotateHill(state: SquadGameState, winnerId: Option<string>)
      requires CanEnd(state.View())
      modifies state
      ensures state.View() == Rotate(old(state.View()), winnerId)
    {
      state.isMatchInProgress := false;
      state.currentRoomId := None;
      if winnerId.None? || winnerId.value == "" {
        state.queue := state.queue + [state.champion.value];
        state.queue := state.queue + [state.challenger.value];
        state.champion := None;
        state.challenger := None;
      } else if winnerId.value == state.champion.value.userId {
        state.queue := state.queue + [state.challenger.value];
        state.challenger := None;
      } else {
        var oldChampion := state.champion.value;
        state.champion := state.challenger;
        state.challenger := None;
        state.queue := state.queue + [oldChampion];
      }
    }

    method HandleMatchEnd(squadId: SquadId, winnerId: Option<string>)
      requires Valid()
      modifies game`rooms, game`nextRoom, StateOf(squadId)
      ensures Valid() && View() == EndSquadMatch(old(View()), squadId, winnerId)
    {
      if squadId !in squadGameStates { return; }
      var state := squadGameStates[squadId];
      if state.champion.None? || state.challenger.None? { return; }
      RotateHill(state, winnerId);
      OneHillChanged(squadId);
      assert View() == WithHill(old(View()), squadId, Rotate(old(View()).hills[squadId], winnerId));
      TryStartMatch(squadId);
    }

    method FindSocket(queue: seq<PlayerState>, socketId: string) returns (index: int)
      requires forall i :: 0 <= i < |queue| ==> queue[i] in players
      ensures index == SocketIndex(queue, On(View(), socketId))
    {
      index := 0;
      while index < |queue|
        invariant 0 <= index <= |queue|
        invariant forall j :: 0 <= j < index ==> queue[j].socketId != socketId
      {
        if queue[index].socketId == socketId {
          FindIndexIs(queue, OneOf(On(View(), socketId)), index);
          return;
        }
        index := index + 1;
      }
      index := -1;
      FindIndexIs(queue, OneOf(On(View(), socketId)), index);
    }

    /** The socket fields of a squad's players are those of the world. */
    lemma HeldAreKnown(squadId: SquadId)
      requires squadId in squadGameStates && Known(View())
      ensures
        var state := squadGameStates[squadId];
        && (forall i :: 0 <= i < |state.queue| ==> state.queue[i] in players)
        && (state.champion.Some? ==> state.champion.value in players)
        && (state.challenger.Some? ==> state.challenger.value in players)
    {
      KnownIn(View(), squadId);
      assert View().hills[squadId] == squadGameStates[squadId].View();
    }

    /** The first forfeit test. */
    method ForfeitByChampion(squadId: SquadId, socketId: string)
      requires Valid() && Known(View()) && squadId in squadGameStates
      modifies game`rooms, game`nextRoom, squadGameStates[squadId]
      ensures Valid() && View() == ChampionForfeit(old(View()), squadId, On(old(View()), socketId))
    {
      var state := squadGameStates[squadId];
      HeldAreKnown(squadId);
      assert View().hills[squadId] == state.View();
      if state.champion.Some? && state.champion.value.socketId == socketId && state.isMatchInProgress {
        if state.challenger.Some? { HandleMatchEnd(squadId, Some(state.challenger.value.userId)); }
      }
    }

    /** The second forfeit test. */
    method ForfeitByChallenger(squadId: SquadId, socketId: string)
      requires Valid() && Known(View()) && squadId in squadGameStates
      modifies game`rooms, game`nextRoom, squadGameStates[squadId]
      ensures Valid() && View() == ChallengerForfeit(old(View()), squadId, On(old(View()), socketId))
    {
      var state := squadGameStates[squadId];
      HeldAreKnown(squadId);
      assert View().hills[squadId] == state.View();
      if state.challenger.Some? && state.challenger.value.socketId == socketId && state.isMatchInProgress {
        if state.champion.Some? { HandleMatchEnd(squadId, Some(state.champion.value.userId)); }
      }
    }

    method HandlePlayerDisconnect(squadId: SquadId, socketId: string)
      requires Valid() && Known(View())
      modifies this`socketToSquad, game`rooms, game`nextRoom, StateOf(squadId)
      ensures Valid() && View() == DropFrom(old(View()), squadId, On(old(View()), socketId))
    {
      hide Hills, Rooms, Sockets, GameService.Valid, SocketIndex, DropFrom, WithHill, RemoveAt, Known;
      ghost var before, closed := View(), On(View(), socketId);
      HillIsView(squadId);
      DropIs(before, squadId, closed);
      if squadId !in squadGameStates { return; }
      var state := squadGameStates[squadId];
      HeldAreKnown(squadId);
      var queueIndex := FindSocket(state.queue, socketId);
      if queueIndex != -1 {
        ReplaceQueue(squadId, RemoveAt(state.queue, queueIndex), socketToSquad);
        return;
      }
      Forfeit(squadId, socketId);
    }

    lemma DropIs(w: World, squadId: SquadId, closed: set<PlayerState>)
      ensures squadId !in w.hills ==> DropFrom(w, squadId, closed) == w
      ensures squadId in w.hills ==>
        var h, i := w.hills[squadId], SocketIndex(w.hills[squadId].queue, closed);
        DropFrom(w, squadId, closed) ==
          if i >= 0 then WithHill(w, squadId, h.(queue := RemoveAt(h.queue, i))).(socketToSquad := w.socketToSquad)
          else ChallengerForfeit(ChampionForfeit(w, squadId, closed), squadId, closed)
    {
    }

    /** The two forfeit tests, one after the other. */
    method Forfeit(squadId: SquadId, socketId: string)
      requires Valid() && Known(View()) && squadId in squadGameStates
      modifies game`rooms, game`nextRoom, squadGameStates[squadId]
      ensures Valid()
      ensures
        var closed := On(old(View()), socketId);
        View() == ChallengerForfeit(ChampionForfeit(old(View()), squadId, closed), squadId, closed)
    {
      hide Hills, Rooms, Sockets, GameService.Valid, ChampionForfeit, ChallengerForfeit;
      HillIsView(squadId);
      ForfeitKeepsKnown(View(), squadId, On(View(), socketId));
      ForfeitByChampion(squadId, socketId);
      assert On(View(), socketId) == old(On(View(), socketId));
      ForfeitByChallenger(squadId, socketId);
    }

    lemma ForfeitKeepsKnown(w: World, squadId: SquadId, closed: set<PlayerState>)
      requires squadId in w.hills && Known(w)
      ensures Known(ChampionForfeit(w, squadId, closed)) && ChampionForfeit(w, squadId, closed).sockets == w.sockets
    {
      var h := w.hills[squadId];
      if ChampionForfeits(h, closed) {
        EndKeepsKnown(w, squadId, Some(h.challenger.value.userId));
        EndKeepsSockets(w, squadId, Some(h.challenger.value.userId));
      }
    }

    method HandleDisconnect(socketId: string)
      requires Valid() && Known(View())
      modifies this`socketToSquad, game`rooms, game`nextRoom, States()
      ensures Valid() && View() == CloseSocket(old(View()), socketId)
    {
      hide Hills, Rooms, Sockets, GameService.Valid;
      if socketId in socketToSquad {
        HandlePlayerDisconnect(socketToSquad[socketId], socketId);
        socketToSquad := socketToSquad - {socketId};
      }
    }

    /** Searches the squads for the one that plays in the room; in a linked world there is at most one. */
    method NotifyMatchEnd(roomId: RoomId, winnerId: Option<string>)
      requires Valid() && AllLinked(View())
      modifies game`rooms, game`nextRoom, States()
      ensures Valid() && View() == Notify(old(View()), roomId, winnerId)
    {
      ghost var before := View();
      var squads := squadGameStates.Keys;
      while squads != {}
        invariant squads <= squadGameStates.Keys && Valid() && View() == before
        invariant forall s :: s in before.hills && s !in squads ==> before.hills[s].room != Some(roomId)
        decreases squads
      {
        var squadId :| squadId in squads;
        if squadGameStates[squadId].currentRoomId == Some(roomId) {
          assert before.hills[squadId].room == Some(roomId);
          assert SquadOf(before, roomId) == squadId;
          HandleMatchEnd(squadId, winnerId);
          return;
        }
        assert before.hills[squadId].room != Some(roomId);
        squads := squads - {squadId};
      }
    }
  }

  /** `game:reconnect` of the game gateway, which writes the player object that the room shares with its squad. */
  class GameGateway {
    const game: GameService
    const squads: SquadGateway

    constructor (game: GameService, squads: SquadGateway)
      requires squads.game == game
      ensures this.game == game && this.squads == squads
    {
      this.game, this.squads := game, squads;
    }

    /** Writes the socket field of one player object. */
    method MovePlayer(player: PlayerState, socketId: string)
      modifies player`socketId
      ensures squads.View() ==
        if player in squads.players then old(squads.View()).(sockets := old(squads.Sockets())[player := socketId])
        else old(squads.View())
    {
      player.socketId := socketId;
      assert squads.Sockets() ==
        if player in squads.players then old(squads.Sockets())[player := socketId] else old(squads.Sockets());
    }

    method HandleReconnect(userId: string, socketId: string) returns (found: Option<RoomId>)
      requires squads.game == game
      modifies game.Seated()`socketId
      ensures found.None? ==>
        && squads.View() == old(squads.View())
        && (userId == "" || forall id :: id in game.rooms && game.rooms[id].status == Match.InProgress ==>
              game.rooms[id].player1.userId != userId && game.rooms[id].player2.userId != userId)
      ensures found.Some? ==>
        && found.value in game.rooms && game.rooms[found.value].status == Match.InProgress
        && squads.View() == Reconnected(old(squads.View()), found.value, userId, socketId)
    {
      found := None;
      if userId == "" { return; }
      found := game.FindActiveRoomByUserId(userId);
      if found.None? { return; }
      var room := game.rooms[found.value];
      game.SeatedAt(found.value);
      if room.player1.userId == userId {
        MovePlayer(room.player1, socketId);
      } else if room.player2.userId == userId {
        MovePlayer(room.player2, socketId);
      }
    }
  }
}
