/** The game service: live rooms that share mutable player objects, updated in place. */
module GameService {
  import opened Wrappers
  import opened RpsEngine
  import opened Match
  import opened Players
  import LiveRooms

  class GameRoom {
    const roomId: RoomId
    const player1: PlayerState
    const player2: PlayerState
    var status: Status
    var rounds: seq<Round>
    var currentRound: nat
    var player1Wins: nat
    var player2Wins: nat
    var winnerId: Option<string>

    constructor (roomId: RoomId, player1: PlayerState, player2: PlayerState)
      ensures this.roomId == roomId && this.player1 == player1 && this.player2 == player2
      ensures View() == Opened(player1.userId, player2.userId, player1.move, player2.move)
    {
      this.roomId, this.player1, this.player2 := roomId, player1, player2;
      status, rounds, currentRound, player1Wins, player2Wins, winnerId := InProgress, [], 1, 0, 0, None;
    }

    /** The room as a value.  The pending moves are fields of the shared player objects. */
    function View(): Room
      reads this, player1, player2
    {
      Room(player1.userId, player2.userId, player1.move, player2.move,
           status, rounds, currentRound, player1Wins, player2Wins, winnerId)
    }

    /** What the room holds itself. */
    function Board(): LiveRooms.Board
      reads this
    {
      LiveRooms.Board(Pairing(player1, player2), status, rounds, currentRound, player1Wins, player2Wins, winnerId)
    }

    /** Scores the round both players have moved in; tells whether that completed the match. */
    method ResolveRound() returns (complete: bool)
      requires player1 != player2 && player1.move.Some? && player2.move.Some? && status == InProgress
      modifies this, player1`move, player2`move
      ensures View() == ResolveRoom(old(View()))
      ensures complete <==> status == Completed
    {
      var m1, m2 := player1.move.value, player2.move.value;
      var outcome := RpsEngine.ResolveRound(m1, m2, player1.userId, player2.userId);
      rounds := rounds + [Round(currentRound, m1, m2, outcome.winnerId)];
      if outcome.result == Player1 { player1Wins := player1Wins + 1; }
      if outcome.result == Player2 { player2Wins := player2Wins + 1; }
      var result := ResolveMatch(player1Wins, player2Wins, player1.userId, player2.userId);
      if result.isComplete {
        status := Completed;
        winnerId := result.winnerId;
      } else {
        currentRound := currentRound + 1;
        player1.move := None;
        player2.move := None;
      }
      complete := result.isComplete;
    }
  }

  class GameService {
    var rooms: map<RoomId, GameRoom>
    var nextRoom: RoomId
    /** The rooms whose finalization was started, in order. */
    var finalizing: seq<RoomId>

    ghost predicate Valid()
      reads this
    {
      forall id :: id in rooms ==> id < nextRoom && rooms[id].roomId == id
    }

    constructor ()
      ensures Valid() && rooms == map[] && View() == LiveRooms.NO_ROOMS
    {
      rooms, nextRoom, finalizing := map[], 0, [];
    }

    /** Every player object that sits in some room. */
    ghost function Seated(): set<PlayerState>
      reads this
    {
      (set id | id in rooms :: rooms[id].player1) + (set id | id in rooms :: rooms[id].player2)
    }

    ghost function Boards(): map<RoomId, LiveRooms.Board>
      reads this, rooms.Values
    {
      map id | id in rooms :: rooms[id].Board()
    }

    ghost function Moves(): LiveRooms.Moves
      reads this, Seated()
    {
      map p | p in Seated() && p.move.Some? :: p.move.value
    }

    /** All rooms and the pending moves of their players as one value. */
    ghost function View(): LiveRooms.Service
      reads this, rooms.Values, Seated()
    {
      LiveRooms.Service(Boards(), Moves(), nextRoom, finalizing)
    }

    /** Stores the player objects it is given, with whatever move they still carry. */
    method CreateRoom(player1: PlayerState, player2: PlayerState) returns (room: GameRoom)
      requires Valid()
      modifies this`rooms, this`nextRoom
      ensures Valid() && fresh(room)
      ensures room.roomId == old(nextRoom) && nextRoom == old(nextRoom) + 1
      ensures rooms == old(rooms)[room.roomId := room] && room.roomId !in old(rooms)
      ensures room.player1 == player1 && room.player2 == player2
      ensures room.View() == Opened(player1.userId, player2.userId, player1.move, player2.move)
      // a move can only be set on a seated object
      ensures (forall p :: p in {player1, player2} && p !in old(Seated()) ==> p.move.None?) ==>
        View() == LiveRooms.Step(old(View()), LiveRooms.Open(Pairing(player1, player2)))
    {
      room := new GameRoom(nextRoom, player1, player2);
      rooms := rooms[nextRoom := room];
      nextRoom := nextRoom + 1;
      BoardAdded(room.roomId);
      SeatsAdded(room.roomId);
      if forall p :: p in {player1, player2} && p !in old(Seated()) ==> p.move.None? {
        MovesKept();
      }
    }

    /** Footprint of a submission: the room and its two player objects, if the room exists. */
    ghost function RoomObjects(roomId: RoomId): set<object>
      reads this
    {
      if roomId in rooms then {rooms[roomId], rooms[roomId].player1, rooms[roomId].player2} else {}
    }

    twostate lemma BoardsWritten(roomId: RoomId)
      requires rooms == old(rooms) && roomId in rooms
      requires forall id :: id in rooms && id != roomId ==> rooms[id].Board() == old(rooms[id].Board())
      ensures Boards() == old(Boards())[roomId := rooms[roomId].Board()]
    {
    }

    twostate lemma MovesWritten(roomId: RoomId)
      requires rooms == old(rooms) && roomId in rooms && rooms[roomId].player1 != rooms[roomId].player2
      requires forall p :: p in Seated() && !Seats(rooms[roomId].Board().seats, p) ==> p.move == old(p.move)
      ensures
        var p1, p2 := rooms[roomId].player1, rooms[roomId].player2;
        Moves() == LiveRooms.WithMove(LiveRooms.WithMove(old(Moves()), p1, p1.move), p2, p2.move)
    {
      assert Seated() == old(Seated());
      SeatedAt(roomId);
    }

    lemma SeatedAt(roomId: RoomId)
      requires roomId in rooms
      ensures rooms[roomId].player1 in Seated() && rooms[roomId].player2 in Seated()
    {
    }

    lemma ViewAt(roomId: RoomId)
      requires roomId in rooms
      ensures LiveRooms.View(View(), roomId) == rooms[roomId].View()
    {
      SeatedAt(roomId);
    }

    /** New seats for objects without a move add no move. */
    twostate lemma MovesKept()
      requires old(Seated()) <= Seated()
      requires forall p :: p in Seated() ==> p.move == if p in old(Seated()) then old(p.move) else None
      ensures Moves() == old(Moves())
    {
    }

    twostate lemma BoardAdded(roomId: RoomId)
      requires roomId in rooms && roomId !in old(rooms) && rooms == old(rooms)[roomId := rooms[roomId]]
      requires forall id :: id in old(rooms) ==> rooms[id].Board() == old(rooms[id].Board())
      ensures Boards() == old(Boards())[roomId := rooms[roomId].Board()]
    {
    }

    twostate lemma SeatsAdded(roomId: RoomId)
      requires roomId in rooms && roomId !in old(rooms) && rooms == old(rooms)[roomId := rooms[roomId]]
      ensures Seated() == old(Seated()) + {rooms[roomId].player1, rooms[roomId].player2}
    {
      SeatedAt(roomId);
      forall p | p in old(Seated()) ensures p in Seated() {
        var id :| id in old(rooms) && (p == old(rooms)[id].player1 || p == old(rooms)[id].player2);
        assert rooms[id] == old(rooms)[id];
        SeatedAt(id);
      }
    }

    /** A submission is one step of all rooms together: besides its room it can change the pending moves that other
        rooms of the same players see. */
    method SubmitMove(roomId: RoomId, userId: string, move: string) returns (verdict: Verdict)
      requires Valid() && (roomId in rooms ==> rooms[roomId].player1 != rooms[roomId].player2)
      modifies this`finalizing, RoomObjects(roomId)
      ensures Valid()
      ensures roomId !in rooms ==> verdict == Rejected(RoomNotFound)
      ensures roomId in rooms ==>
        && verdict == Submit(old(rooms[roomId].View()), Submission(userId, move))
        && rooms[roomId].View() == Next(old(rooms[roomId].View()), Submission(userId, move))
      ensures View() == LiveRooms.Step(old(View()), LiveRooms.Play(roomId, Submission(userId, move)))
    {
      if roomId !in rooms { return Rejected(RoomNotFound); }
      ghost var before, s := View(), Submission(userId, move);
      ViewAt(roomId);
      SeatedAt(roomId);
      verdict := SubmitTo(rooms[roomId], userId, move);
      SubmitCompletes(LiveRooms.View(before, roomId), s);
      if verdict.Accepted? && rooms[roomId].status == Completed { finalizing := finalizing + [roomId]; }
      BoardsWritten(roomId);
      MovesWritten(roomId);
      LiveRooms.PlayWrites(before, View(), roomId, s);
    }

    method SubmitTo(room: GameRoom, userId: string, move: string) returns (verdict: Verdict)
      requires room.player1 != room.player2
      modifies room, room.player1`move, room.player2`move
      ensures verdict == Submit(old(room.View()), Submission(userId, move))
      ensures room.View() == Next(old(room.View()), Submission(userId, move))
    {
      if room.status != InProgress { return Rejected(NotInProgress); }
      if ParseMove(move).None? { return Rejected(InvalidMove); }
      var isP1, isP2 := room.player1.userId == userId, room.player2.userId == userId;
      if !isP1 && !isP2 { return Rejected(NotInRoom); }
      if isP1 {
        if room.player1.move.Some? { return Rejected(AlreadySubmitted); }
        room.player1.move := ParseMove(move);
      } else {
        if room.player2.move.Some? { return Rejected(AlreadySubmitted); }
        room.player2.move := ParseMove(move);
      }
      if room.player1.move.Some? && room.player2.move.Some? {
        var complete := room.ResolveRound();
      }
      verdict := Accepted(room.View());
    }

    /** A room in progress in which the user plays, if there is one. */
    method FindActiveRoomByUserId(userId: string) returns (found: Option<RoomId>)
      ensures found.Some? ==>
        && found.value in rooms && rooms[found.value].status == InProgress
        && (rooms[found.value].player1.userId == userId || rooms[found.value].player2.userId == userId)
      ensures found.None? ==> forall id :: id in rooms && rooms[id].status == InProgress ==>
        rooms[id].player1.userId != userId && rooms[id].player2.userId != userId
    {
      var ids := rooms.Keys;
      while ids != {}
        invariant ids <= rooms.Keys
        invariant forall id :: id in rooms && id !in ids && rooms[id].status == InProgress ==>
          rooms[id].player1.userId != userId && rooms[id].player2.userId != userId
        decreases ids
      {
        var id :| id in ids;
        var room := rooms[id];
        if room.status == InProgress && (room.player1.userId == userId || room.player2.userId == userId) {
          return Some(id);
        }
        ids := ids - {id};
      }
      found := None;
    }
  }

  lemma SubmitCompletes(r: Room, s: Submission)
    ensures Submit(r, s).Accepted? ==> r.status == InProgress
    ensures r.status == InProgress && Next(r, s).status == Completed ==> Submit(r, s).Accepted?
  {
  }
}
