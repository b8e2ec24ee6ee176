/** All rooms of the game service together.  A pending move is a field of a player object, and a squad seats the same
    object in several rooms, so a submission to one room can be seen in another. */
module LiveRooms {
  import opened Wrappers
  import opened RpsEngine
  import opened Match
  import opened Players

  /** What a room object holds itself. */
  datatype Board = Board(
    seats: Pairing, status: Status, rounds: seq<Round>, current: nat, wins1: nat, wins2: nat, winnerId: Option<string>)

  /** `finalizing` lists the rooms whose finalization was started, in order. */
  datatype Service = Service(
    boards: map<RoomId, Board>, moves: map<PlayerState, Move>, nextRoom: RoomId, finalizing: seq<RoomId>)

  const NO_ROOMS := Service(map[], map[], 0, [])

  type Moves = map<PlayerState, Move>

  function MoveOf(moves: Moves, p: PlayerState): Option<Move> {
    if p in moves then Some(moves[p]) else None
  }

  function WithMove(moves: Moves, p: PlayerState, move: Option<Move>): Moves {
    match move
    case None => moves - {p}
    case Some(m) => moves[p := m]
  }

  function RoomOf(b: Board, moves: Moves): Room {
    Room(b.seats.player1.userId, b.seats.player2.userId, MoveOf(moves, b.seats.player1), MoveOf(moves, b.seats.player2),
         b.status, b.rounds, b.current, b.wins1, b.wins2, b.winnerId)
  }

  function BoardOf(seats: Pairing, r: Room): Board {
    Board(seats, r.status, r.rounds, r.current, r.wins1, r.wins2, r.winnerId)
  }

  function View(sv: Service, id: RoomId): Room
    requires id in sv.boards
  {
    RoomOf(sv.boards[id], sv.moves)
  }

  datatype Action = Open(seats: Pairing) | Play(room: RoomId, submission: Submission)

  function NewBoard(seats: Pairing): Board {
    BoardOf(seats, Opened(seats.player1.userId, seats.player2.userId, None, None))
  }

  /** Writes a room and the moves of its two players back. */
  function Put(sv: Service, id: RoomId, r: Room): Service
    requires id in sv.boards
  {
    var seats := sv.boards[id].seats;
    sv.(boards := sv.boards[id := BoardOf(seats, r)],
        moves := WithMove(WithMove(sv.moves, seats.player1, r.move1), seats.player2, r.move2))
  }

  function Step(sv: Service, a: Action): Service {
    match a
    case Open(seats) => sv.(boards := sv.boards[sv.nextRoom := NewBoard(seats)], nextRoom := sv.nextRoom + 1)
    case Play(id, s) =>
      if id !in sv.boards then sv
      else
        var r := View(sv, id);
        var completes := r.status == InProgress && Next(r, s).status == Completed;
        Put(sv, id, Next(r, s)).(finalizing := if completes then sv.finalizing + [id] else sv.finalizing)
  }

  /** The fields that a submission leaves. */
  lemma PlayWrites(sv: Service, sv': Service, id: RoomId, s: Submission)
    requires id in sv.boards
    requires
      var r, r' := View(sv, id), Next(View(sv, id), s);
      var seats := sv.boards[id].seats;
      && sv'.boards == sv.boards[id := BoardOf(seats, r')] && sv'.nextRoom == sv.nextRoom
      && sv'.moves == WithMove(WithMove(sv.moves, seats.player1, r'.move1), seats.player2, r'.move2)
      && sv'.finalizing
           == if r.status == InProgress && r'.status == Completed then sv.finalizing + [id] else sv.finalizing
    ensures sv' == Step(sv, Play(id, s))
  {
  }

  function Run(sv: Service, actions: seq<Action>): Service
    decreases |actions|
  {
    if actions == [] then sv else Run(Step(sv, actions[0]), actions[1..])
  }

  // ---------------------------------------------------------------------------------------------
  // What every reachable room keeps, also when it shares its players
  // ---------------------------------------------------------------------------------------------

  /** Rooms are made for two different users. */
  ghost predicate Proper(actions: seq<Action>) {
    forall i :: 0 <= i < |actions| && actions[i].Open? ==>
      actions[i].seats.player1.userId != actions[i].seats.player2.userId
  }

  /** Every room is well scored. */
  ghost predicate AllScored(sv: Service) {
    forall id :: id in sv.boards ==> WellScored(View(sv, id))
  }

  /** Finalization was started once for each completed room, and for no other. */
  ghost predicate FinalizesCompleted(sv: Service) {
    && (forall i, j :: 0 <= i < j < |sv.finalizing| ==> sv.finalizing[i] != sv.finalizing[j])
    && (forall id :: id in sv.finalizing <==> id in sv.boards && sv.boards[id].status == Completed)
  }

  /** Ids are handed out once, and the two seats of a room differ. */
  ghost predicate Shaped(sv: Service) {
    forall id :: id in sv.boards ==>
      id < sv.nextRoom && sv.boards[id].seats.player1.userId != sv.boards[id].seats.player2.userId
  }

  ghost predicate Sane(sv: Service) {
    Shaped(sv) && AllScored(sv) && FinalizesCompleted(sv)
  }

  lemma ScoreIgnoresMoves(b: Board, moves: Moves, moves': Moves)
    ensures WellScored(RoomOf(b, moves)) <==> WellScored(RoomOf(b, moves'))
  {
  }

  /** A submission writes nothing but the board and the two moves of its room. */
  lemma PlayIsNext(sv: Service, id: RoomId, s: Submission)
    requires id in sv.boards && sv.boards[id].seats.player1 != sv.boards[id].seats.player2
    ensures
      var sv', seats := Step(sv, Play(id, s)), sv.boards[id].seats;
      && sv'.boards.Keys == sv.boards.Keys && sv'.nextRoom == sv.nextRoom
      && sv'.boards[id].seats == seats && View(sv', id) == Next(View(sv, id), s)
      && (forall other :: other in sv.boards && other != id ==> sv'.boards[other] == sv.boards[other])
      && (forall p :: !Seats(seats, p) ==> MoveOf(sv'.moves, p) == MoveOf(sv.moves, p))
      && (Submit(View(sv, id), s).Rejected? ==> sv' == sv)
  {
    NextKeepsPlayers(View(sv, id), s);
    if Submit(View(sv, id), s).Rejected? {
      assert WithMove(sv.moves, sv.boards[id].seats.player1, View(sv, id).move1) == sv.moves;
      assert WithMove(sv.moves, sv.boards[id].seats.player2, View(sv, id).move2) == sv.moves;
    }
  }

  lemma NextKeepsPlayers(r: Room, s: Submission)
    ensures Next(r, s).p1 == r.p1 && Next(r, s).p2 == r.p2
    ensures Next(r, s).status == r.status || (r.status == InProgress && Next(r, s).status == Completed)
  {
  }

  lemma StepKeepsScores(sv: Service, a: Action)
    requires Shaped(sv) && AllScored(sv)
    ensures AllScored(Step(sv, a))
  {
    hide WellScored;
    var sv' := Step(sv, a);
    match a
    case Open(seats) =>
      NewIsScored(seats, sv.moves);
      forall id | id in sv.boards && id != sv.nextRoom ensures View(sv', id) == View(sv, id) {
      }
    case Play(id, s) =>
      if id in sv.boards {
        PlayIsNext(sv, id, s);
        NextKeepsScore(View(sv, id), s);
        forall other | other in sv.boards && other != id ensures WellScored(View(sv', other)) {
          ScoreIgnoresMoves(sv.boards[other], sv.moves, sv'.moves);
          assert WellScored(View(sv, other));
        }
      }
  }

  lemma NewIsScored(seats: Pairing, moves: Moves)
    ensures WellScored(RoomOf(NewBoard(seats), moves))
  {
  }

  lemma StepKeepsFinalizing(sv: Service, a: Action)
    requires Shaped(sv) && FinalizesCompleted(sv)
    ensures FinalizesCompleted(Step(sv, a))
  {
    hide Next;
    if a.Play? && a.room in sv.boards {
      PlayIsNext(sv, a.room, a.submission);
      NextKeepsPlayers(View(sv, a.room), a.submission);
    }
  }

  lemma StepKeepsSane(sv: Service, a: Action)
    requires Sane(sv) && Proper([a])
    ensures Sane(Step(sv, a))
  {
    hide AllScored, FinalizesCompleted;
    assert [a][0] == a;
    StepKeepsScores(sv, a);
    StepKeepsFinalizing(sv, a);
    if a.Play? && a.room in sv.boards {
      PlayIsNext(sv, a.room, a.submission);
    }
  }

  /** Over all runs of the service: counters, round numbers, winners and the single start of finalization are right in
      every room, also in rooms that share their players. */
  lemma {:induction false} RunKeepsSane(sv: Service, actions: seq<Action>)
    requires Sane(sv) && Proper(actions)
    ensures Sane(Run(sv, actions))
    decreases |actions|
  {
    if actions != [] {
      assert [actions[0]][0] == actions[0];
      StepKeepsSane(sv, actions[0]);
      assert forall i :: 0 <= i < |actions[1..]| ==> actions[1..][i] == actions[i + 1];
      RunKeepsSane(Step(sv, actions[0]), actions[1..]);
    }
  }

  lemma ReachableRooms(actions: seq<Action>)
    requires Proper(actions)
    ensures Sane(Run(NO_ROOMS, actions))
  {
    RunKeepsSane(NO_ROOMS, actions);
  }

  // ---------------------------------------------------------------------------------------------
  // A room that is left alone is a run of the match machine
  // ---------------------------------------------------------------------------------------------

  /** A submission that is accepted in another room over one of this room's players. */
  predicate Disturbs(sv: Service, a: Action, id: RoomId)
    requires id in sv.boards
  {
    && a.Play? && a.room != id && a.room in sv.boards && Share(sv.boards[id].seats, sv.boards[a.room].seats)
    && Submit(View(sv, a.room), a.submission).Accepted?
  }

  ghost predicate Undisturbed(sv: Service, actions: seq<Action>, id: RoomId)
    decreases |actions|
  {
    actions != [] ==>
      && id in sv.boards && !Disturbs(sv, actions[0], id)
      && Undisturbed(Step(sv, actions[0]), actions[1..], id)
  }

  /** The submissions to one room. */
  function Own(actions: seq<Action>, id: RoomId): seq<Submission> {
    if actions == [] then []
    else (if actions[0].Play? && actions[0].room == id then [actions[0].submission] else []) + Own(actions[1..], id)
  }

  lemma StepOfOthers(sv: Service, a: Action, id: RoomId)
    requires Shaped(sv) && id in sv.boards && Proper([a])
    ensures
      var sv' := Step(sv, a);
      && Shaped(sv') && id in sv'.boards && sv'.boards[id].seats == sv.boards[id].seats
      && (!(a.Play? && a.room == id) && !Disturbs(sv, a, id) ==> View(sv', id) == View(sv, id))
      && (a.Play? && a.room == id ==> View(sv', id) == Next(View(sv, id), a.submission))
  {
    assert [a][0] == a;
    if a.Play? && a.room in sv.boards {
      PlayIsNext(sv, a.room, a.submission);
    }
  }

  /** A room whose players are not disturbed by other rooms plays as if it were alone. */
  lemma {:induction false} UndisturbedIsOwnRun(sv: Service, actions: seq<Action>, id: RoomId)
    requires Shaped(sv) && id in sv.boards && Proper(actions) && Undisturbed(sv, actions, id)
    ensures id in Run(sv, actions).boards && Run(sv, actions).boards[id].seats == sv.boards[id].seats
    ensures View(Run(sv, actions), id) == Match.Run(View(sv, id), Own(actions, id))
    decreases |actions|
  {
    if actions != [] {
      var a, rest := actions[0], actions[1..];
      assert [a][0] == a;
      StepOfOthers(sv, a, id);
      assert forall i :: 0 <= i < |rest| ==> rest[i] == actions[i + 1];
      UndisturbedIsOwnRun(Step(sv, a), rest, id);
      if a.Play? && a.room == id {
        assert Own(actions, id)[0] == a.submission && Own(actions, id)[1..] == Own(rest, id);
      } else {
        assert Own(actions, id) == Own(rest, id);
      }
    }
  }

  /** Asynchronous play refines synchronous rounds in the whole service: a room opened with at most one left-over move
      and not disturbed since is the round-by-round game on its two sequences of accepted moves. */
  lemma UndisturbedRoomIsPlayed(sv: Service, seats: Pairing, actions: seq<Action>)
    requires Shaped(sv) && Proper([Open(seats)] + actions)
    requires Undisturbed(Step(sv, Open(seats)), actions, sv.nextRoom)
    requires seats.player1 !in sv.moves || seats.player2 !in sv.moves
    ensures
      var start := Step(sv, Open(seats));
      var r, own := View(start, sv.nextRoom), Own(actions, sv.nextRoom);
      sv.nextRoom in Run(start, actions).boards &&
      View(Run(start, actions), sv.nextRoom) ==
        Played(seats.player1.userId, seats.player2.userId,
               Pending(MoveOf(sv.moves, seats.player1)) + AcceptedMoves(r, own, false),
               Pending(MoveOf(sv.moves, seats.player2)) + AcceptedMoves(r, own, true))
  {
    var start, all := Step(sv, Open(seats)), [Open(seats)] + actions;
    assert all[0] == Open(seats) && forall i :: 0 <= i < |actions| ==> actions[i] == all[i + 1];
    UndisturbedIsOwnRun(start, actions, sv.nextRoom);
    var move1, move2 := MoveOf(sv.moves, seats.player1), MoveOf(sv.moves, seats.player2);
    OpenedIsPlayed(seats.player1.userId, seats.player2.userId, move1, move2);
    AsyncRefinesSync(seats.player1.userId, seats.player2.userId, Pending(move1), Pending(move2),
                     View(start, sv.nextRoom), Own(actions, sv.nextRoom));
  }

  /** No other room in progress seats one of this room's players. */
  predicate Exclusive(sv: Service, id: RoomId)
    requires id in sv.boards
  {
    forall other :: other in sv.boards && other != id && sv.boards[other].status == InProgress ==>
      !Share(sv.boards[id].seats, sv.boards[other].seats)
  }

  /** No room is opened over one of these players. */
  ghost predicate NoneOver(actions: seq<Action>, seats: Pairing) {
    forall i :: 0 <= i < |actions| && actions[i].Open? ==> !Share(seats, actions[i].seats)
  }

  lemma StepKeepsExclusive(sv: Service, a: Action, id: RoomId)
    requires Shaped(sv) && id in sv.boards && Proper([a]) && Exclusive(sv, id)
    requires a.Open? ==> !Share(sv.boards[id].seats, a.seats)
    ensures id in Step(sv, a).boards && Exclusive(Step(sv, a), id) && !Disturbs(sv, a, id)
  {
    StepOfOthers(sv, a, id);
    if a.Play? && a.room in sv.boards {
      PlayIsNext(sv, a.room, a.submission);
      NextKeepsPlayers(View(sv, a.room), a.submission);
    }
  }

  lemma {:induction false} ExclusiveIsUndisturbed(sv: Service, actions: seq<Action>, id: RoomId)
    requires Shaped(sv) && id in sv.boards && Proper(actions)
    requires Exclusive(sv, id) && NoneOver(actions, sv.boards[id].seats)
    ensures Undisturbed(sv, actions, id)
    decreases |actions|
  {
    if actions != [] {
      var a, rest := actions[0], actions[1..];
      assert [a][0] == a;
      StepOfOthers(sv, a, id);
      StepKeepsExclusive(sv, a, id);
      assert forall i :: 0 <= i < |rest| ==> rest[i] == actions[i + 1];
      ExclusiveIsUndisturbed(Step(sv, a), rest, id);
    }
  }
}
