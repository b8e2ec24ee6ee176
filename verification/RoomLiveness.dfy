/** When a room can get stuck, and when it can be freed again, with rooms that share their player objects. */
module RoomLiveness {
  import opened Wrappers
  import opened RpsEngine
  import opened Match
  import opened Players
  import opened LiveRooms

  /** The room is in progress and accepts nothing. */
  ghost predicate Blocked(sv: Service, id: RoomId)
    requires id in sv.boards
  {
    sv.boards[id].status == InProgress && forall s :: Submit(View(sv, id), s).Rejected?
  }

  predicate BothMoved(sv: Service, id: RoomId)
    requires id in sv.boards
  {
    sv.boards[id].seats.player1 in sv.moves && sv.boards[id].seats.player2 in sv.moves
  }

  lemma BlockedIff(sv: Service, id: RoomId)
    requires Shaped(sv) && id in sv.boards
    ensures Blocked(sv, id) <==> sv.boards[id].status == InProgress && BothMoved(sv, id)
    ensures BothMoved(sv, id) <==> View(sv, id).move1.Some? && View(sv, id).move2.Some?
  {
    CanMoveIff(View(sv, id));
  }

  // ---------------------------------------------------------------------------------------------
  // Alone with its players a room stays live
  // ---------------------------------------------------------------------------------------------

  lemma NextLeavesAMoveOpen(r: Room, s: Submission)
    requires r.status == InProgress ==> r.move1.None? || r.move2.None?
    ensures Next(r, s).status == InProgress ==> Next(r, s).move1.None? || Next(r, s).move2.None?
  {
  }

  lemma {:induction false} StaysLive(sv: Service, actions: seq<Action>, id: RoomId)
    requires Shaped(sv) && id in sv.boards && Proper(actions)
    requires Exclusive(sv, id) && NoneOver(actions, sv.boards[id].seats)
    requires sv.boards[id].status == InProgress ==> !BothMoved(sv, id)
    ensures id in LiveRooms.Run(sv, actions).boards && !Blocked(LiveRooms.Run(sv, actions), id)
    decreases |actions|
  {
    if actions == [] {
      BlockedIff(sv, id);
    } else {
      var a, rest := actions[0], actions[1..];
      assert [a][0] == a;
      StepOfOthers(sv, a, id);
      StepKeepsExclusive(sv, a, id);
      if a.Play? { NextLeavesAMoveOpen(View(sv, id), a.submission); }
      assert !BothMoved(Step(sv, a), id) <==>
        View(Step(sv, a), id).move1.None? || View(Step(sv, a), id).move2.None?;
      assert forall i :: 0 <= i < |rest| ==> rest[i] == actions[i + 1];
      StaysLive(Step(sv, a), rest, id);
    }
  }

  // ---------------------------------------------------------------------------------------------
  // Single throws
  // ---------------------------------------------------------------------------------------------

  function Text(m: Move): (s: string)
    ensures ParseMove(s) == Some(m)
  {
    match m
    case Rock => "rock"
    case Paper => "paper"
    case Scissors => "scissors"
  }

  function Throw(sv: Service, id: RoomId, p: PlayerState, m: Move): Service {
    Step(sv, Play(id, Submission(p.userId, Text(m))))
  }

  /** The room is in progress between these two players, and neither has won it. */
  predicate Playing(sv: Service, id: RoomId, p: PlayerState, q: PlayerState) {
    && id in sv.boards && sv.boards[id].seats in {Pairing(p, q), Pairing(q, p)} && p.userId != q.userId
    && sv.boards[id].status == InProgress && sv.boards[id].wins1 < 2 && sv.boards[id].wins2 < 2
  }

  function WinsOf(b: Board, p: PlayerState): nat {
    if p == b.seats.player1 then b.wins1 else b.wins2
  }

  /** Only the room and these two players changed. */
  predicate ElseAlike(sv: Service, sv': Service, id: RoomId, p: PlayerState, q: PlayerState) {
    && (forall other :: other in sv.boards && other != id ==>
          other in sv'.boards && sv'.boards[other] == sv.boards[other])
    && (forall x :: x in sv.moves.Keys + sv'.moves.Keys && x != p && x != q ==>
          MoveOf(sv'.moves, x) == MoveOf(sv.moves, x))
  }

  /** The first throw of a round waits. */
  lemma ThrowFirst(sv: Service, id: RoomId, p: PlayerState, q: PlayerState, m: Move)
    requires Playing(sv, id, p, q) && p !in sv.moves && q !in sv.moves
    ensures
      var sv' := Throw(sv, id, p, m);
      && ElseAlike(sv, sv', id, p, q) && Playing(sv', id, p, q) && sv'.boards[id] == sv.boards[id]
      && MoveOf(sv'.moves, p) == Some(m) && q !in sv'.moves
  {
    PlayIsNext(sv, id, Submission(p.userId, Text(m)));
  }

  /** An equal second throw is a draw: the round is over, nothing is won, and both moves are cleared. */
  lemma ThrowDraw(sv: Service, id: RoomId, p: PlayerState, q: PlayerState)
    requires Playing(sv, id, p, q) && p !in sv.moves && q in sv.moves
    ensures
      var sv' := Throw(sv, id, p, sv.moves[q]);
      && ElseAlike(sv, sv', id, p, q) && Playing(sv', id, p, q) && p !in sv'.moves && q !in sv'.moves
  {
    PlayIsNext(sv, id, Submission(p.userId, Text(sv.moves[q])));
  }

  /** A winning second throw clears both moves, unless it was the second win: then both stay. */
  lemma ThrowWin(sv: Service, id: RoomId, p: PlayerState, q: PlayerState, m: Move)
    requires Playing(sv, id, p, q) && p !in sv.moves && q in sv.moves && Beats(m) == sv.moves[q]
    ensures
      var sv' := Throw(sv, id, p, m);
      && ElseAlike(sv, sv', id, p, q)
      && (WinsOf(sv.boards[id], p) == 1 ==> p in sv'.moves && q in sv'.moves)
      && (WinsOf(sv.boards[id], p) == 0 ==>
            Playing(sv', id, p, q) && WinsOf(sv'.boards[id], p) == 1 && p !in sv'.moves && q !in sv'.moves)
  {
    PlayIsNext(sv, id, Submission(p.userId, Text(m)));
  }

  // ---------------------------------------------------------------------------------------------
  // Reaching a block through a shared player
  // ---------------------------------------------------------------------------------------------

  function Plays(turns: seq<(RoomId, Submission)>): seq<Action> {
    seq(|turns|, i requires 0 <= i < |turns| => Play(turns[i].0, turns[i].1))
  }

  /** By submissions alone. */
  ghost predicate Reaches(sv: Service, sv': Service) {
    exists turns :: LiveRooms.Run(sv, Plays(turns)) == sv'
  }

  lemma {:induction false} RunOfConcat(sv: Service, a: seq<Action>, b: seq<Action>)
    ensures LiveRooms.Run(sv, a + b) == LiveRooms.Run(LiveRooms.Run(sv, a), b)
    decreases |a|
  {
    if a == [] {
      assert a + b == b;
    } else {
      assert (a + b)[0] == a[0] && (a + b)[1..] == a[1..] + b;
      RunOfConcat(Step(sv, a[0]), a[1..], b);
    }
  }

  lemma ReachesItself(sv: Service)
    ensures Reaches(sv, sv)
  {
    assert LiveRooms.Run(sv, Plays([])) == sv;
  }

  lemma ReachesThrow(sv: Service, sv': Service, id: RoomId, p: PlayerState, m: Move)
    requires Reaches(sv, sv')
    ensures Reaches(sv, Throw(sv', id, p, m))
  {
    var turns :| LiveRooms.Run(sv, Plays(turns)) == sv';
    var last := (id, Submission(p.userId, Text(m)));
    assert Plays(turns + [last]) == Plays(turns) + [Play(last.0, last.1)];
    RunOfConcat(sv, Plays(turns), [Play(last.0, last.1)]);
    assert LiveRooms.Run(sv', [Play(last.0, last.1)]) == LiveRooms.Run(Throw(sv', id, p, m), []);
  }

  /** Both players of the room without a move: a pending one is answered by an equal one. */
  lemma Cleared(sv: Service, id: RoomId, p: PlayerState, q: PlayerState) returns (sv': Service)
    requires Playing(sv, id, p, q) && !(p in sv.moves && q in sv.moves)
    ensures Reaches(sv, sv') && ElseAlike(sv, sv', id, p, q) && Playing(sv', id, p, q)
    ensures p !in sv'.moves && q !in sv'.moves
  {
    ReachesItself(sv);
    if p in sv.moves {
      ThrowDraw(sv, id, q, p);
      ReachesThrow(sv, sv, id, q, sv.moves[p]);
      sv' := Throw(sv, id, q, sv.moves[p]);
    } else if q in sv.moves {
      ThrowDraw(sv, id, p, q);
      ReachesThrow(sv, sv, id, p, sv.moves[q]);
      sv' := Throw(sv, id, p, sv.moves[q]);
    } else {
      sv' := sv;
    }
  }

  /** One shared player: q moves here, and p in the other room. */
  lemma BlockThroughOne(sv: Service, id: RoomId, other: RoomId, p: PlayerState, q: PlayerState, x: PlayerState)
    returns (sv': Service)
    requires id != other && x != q && x != p
    requires Playing(sv, id, p, q) && Playing(sv, other, p, x) && !(p in sv.moves && q in sv.moves)
    ensures Reaches(sv, sv') && Playing(sv', id, p, q) && p in sv'.moves && q in sv'.moves
  {
    hide Throw, Reaches;
    var sv1 := Cleared(sv, id, p, q);
    ThrowFirst(sv1, id, q, p, Rock);
    ReachesThrow(sv, sv1, id, q, Rock);
    var sv2 := Throw(sv1, id, q, Rock);
    var sv3 := sv2;
    if x in sv2.moves {
      ThrowDraw(sv2, other, p, x);
      ReachesThrow(sv, sv2, other, p, sv2.moves[x]);
      sv3 := Throw(sv2, other, p, sv2.moves[x]);
    }
    ThrowFirst(sv3, other, p, x, Rock);
    ReachesThrow(sv, sv3, other, p, Rock);
    sv' := Throw(sv3, other, p, Rock);
    assert sv'.boards[id] == sv3.boards[id] == sv2.boards[id];
  }

  /** p wins a round of the room. */
  lemma WonRound(sv: Service, from: Service, id: RoomId, p: PlayerState, q: PlayerState) returns (sv': Service)
    requires Reaches(from, sv) && Playing(sv, id, p, q) && p !in sv.moves && q !in sv.moves
    ensures Reaches(from, sv') && ElseAlike(sv, sv', id, p, q)
    ensures WinsOf(sv.boards[id], p) == 1 ==> p in sv'.moves && q in sv'.moves
    ensures WinsOf(sv.boards[id], p) == 0 ==>
      Playing(sv', id, p, q) && WinsOf(sv'.boards[id], p) == 1 && p !in sv'.moves && q !in sv'.moves
  {
    ThrowFirst(sv, id, q, p, Scissors);
    ReachesThrow(from, sv, id, q, Scissors);
    var sv1 := Throw(sv, id, q, Scissors);
    ThrowWin(sv1, id, p, q, Rock);
    ReachesThrow(from, sv1, id, p, Rock);
    sv' := Throw(sv1, id, p, Rock);
  }

  /** Two shared players: they finish the other room, and its deciding moves stay on them. */
  lemma BlockThroughBoth(sv: Service, id: RoomId, other: RoomId, p: PlayerState, q: PlayerState) returns (sv': Service)
    requires id != other
    requires Playing(sv, id, p, q) && Playing(sv, other, p, q) && !(p in sv.moves && q in sv.moves)
    ensures Reaches(sv, sv') && Playing(sv', id, p, q) && p in sv'.moves && q in sv'.moves
  {
    var sv1 := Cleared(sv, id, p, q);
    var sv2 := WonRound(sv1, sv, other, p, q);
    if WinsOf(sv1.boards[other], p) == 1 {
      sv' := sv2;
    } else {
      sv' := WonRound(sv2, sv, other, p, q);
    }
    assert sv'.boards[id] == sv1.boards[id];
  }

  lemma BlockThroughShared(sv: Service, id: RoomId, other: RoomId) returns (sv': Service)
    requires Sane(sv) && id in sv.boards && other in sv.boards && id != other
    requires sv.boards[id].status == InProgress && sv.boards[other].status == InProgress
    requires Share(sv.boards[id].seats, sv.boards[other].seats) && !BothMoved(sv, id)
    ensures Reaches(sv, sv') && id in sv'.boards && sv'.boards[id].status == InProgress && BothMoved(sv', id)
  {
    assert WellScored(View(sv, id)) && WellScored(View(sv, other));
    var seats, seats' := sv.boards[id].seats, sv.boards[other].seats;
    var p := if Seats(seats, seats'.player1) then seats'.player1 else seats'.player2;
    var x := if p == seats'.player1 then seats'.player2 else seats'.player1;
    var q := if p == seats.player1 then seats.player2 else seats.player1;
    assert Playing(sv, id, p, q) && Playing(sv, other, p, x);
    if x == q {
      sv' := BlockThroughBoth(sv, id, other, p, q);
    } else {
      sv' := BlockThroughOne(sv, id, other, p, q, x);
    }
  }

  lemma SaneIsShaped(sv: Service)
    requires Sane(sv)
    ensures Shaped(sv)
  {
  }

  lemma ReachedIsRun(sv: Service, sv': Service, id: RoomId)
    requires Sane(sv) && Reaches(sv, sv') && id in sv.boards
    ensures Sane(sv')
    ensures exists actions ::
      Proper(actions) && NoneOver(actions, sv.boards[id].seats) && LiveRooms.Run(sv, actions) == sv'
  {
    var turns :| LiveRooms.Run(sv, Plays(turns)) == sv';
    RunKeepsSane(sv, Plays(turns));
    assert Proper(Plays(turns)) && NoneOver(Plays(turns), sv.boards[id].seats);
  }

  /** A room that shares a player with another room in progress can be blocked by submissions alone. */
  lemma SharedIsBlockable(sv: Service, id: RoomId, other: RoomId)
    requires Sane(sv) && id in sv.boards && other in sv.boards && id != other
    requires sv.boards[id].status == InProgress && sv.boards[other].status == InProgress
    requires Share(sv.boards[id].seats, sv.boards[other].seats)
    ensures exists actions ::
      && Proper(actions) && NoneOver(actions, sv.boards[id].seats)
      && id in LiveRooms.Run(sv, actions).boards && Blocked(LiveRooms.Run(sv, actions), id)
  {
    hide Sane, Reaches, LiveRooms.Run;
    var sv' := sv;
    ReachesItself(sv);
    if !BothMoved(sv, id) {
      sv' := BlockThroughShared(sv, id, other);
    }
    ReachedIsRun(sv, sv', id);
    SaneIsShaped(sv');
    BlockedIff(sv', id);
  }

  /** Liveness, exactly: whatever is submitted to whatever room, and whatever rooms are opened over other players, some
      submission to this room in progress is always accepted, if and only if one of its moves is missing now and no
      other room in progress seats one of its players. */
  lemma LiveIff(sv: Service, id: RoomId)
    requires Sane(sv) && id in sv.boards && sv.boards[id].status == InProgress
    ensures !BothMoved(sv, id) && Exclusive(sv, id) <==>
      forall actions :: Proper(actions) && NoneOver(actions, sv.boards[id].seats) ==>
        id in LiveRooms.Run(sv, actions).boards && !Blocked(LiveRooms.Run(sv, actions), id)
  {
    hide Sane, Reaches, LiveRooms.Run;
    SaneIsShaped(sv);
    if BothMoved(sv, id) {
      BlockedIff(sv, id);
      ReachesItself(sv);
      ReachedIsRun(sv, sv, id);
    } else if !Exclusive(sv, id) {
      var other :| other in sv.boards && other != id && sv.boards[other].status == InProgress
                   && Share(sv.boards[id].seats, sv.boards[other].seats);
      SharedIsBlockable(sv, id, other);
    } else {
      forall actions | Proper(actions) && NoneOver(actions, sv.boards[id].seats)
        ensures id in LiveRooms.Run(sv, actions).boards && !Blocked(LiveRooms.Run(sv, actions), id)
      {
        StaysLive(sv, actions, id);
      }
    }
  }

  // ---------------------------------------------------------------------------------------------
  // Blocked rooms
  // ---------------------------------------------------------------------------------------------

  /** Nothing frees a blocked room while its players are in no other room in progress. */
  lemma BlockedForever(sv: Service, actions: seq<Action>, id: RoomId)
    requires Shaped(sv) && id in sv.boards && Proper(actions) && Blocked(sv, id)
    requires Exclusive(sv, id) && NoneOver(actions, sv.boards[id].seats)
    ensures id in LiveRooms.Run(sv, actions).boards && View(LiveRooms.Run(sv, actions), id) == View(sv, id)
  {
    BlockedIff(sv, id);
    ExclusiveIsUndisturbed(sv, actions, id);
    UndisturbedIsOwnRun(sv, actions, id);
    StuckForever(View(sv, id), Own(actions, id));
  }

  /** One submission frees a blocked room if and only if another room in progress seats one of its players and still
      waits for a move. */
  lemma FreedIff(sv: Service, id: RoomId)
    requires Sane(sv) && id in sv.boards && Blocked(sv, id)
    ensures
      (exists room, s :: id in Step(sv, Play(room, s)).boards && !Blocked(Step(sv, Play(room, s)), id))
      <==>
      (exists other :: other in sv.boards && other != id && sv.boards[other].status == InProgress
                       && Share(sv.boards[id].seats, sv.boards[other].seats) && !BothMoved(sv, other))
  {
    BlockedIff(sv, id);
    forall room, s | id in Step(sv, Play(room, s)).boards && !Blocked(Step(sv, Play(room, s)), id)
      ensures room in sv.boards && room != id && sv.boards[room].status == InProgress
              && Share(sv.boards[id].seats, sv.boards[room].seats) && !BothMoved(sv, room)
    {
      FreesThrough(sv, id, room, s);
    }
    if other :| other in sv.boards && other != id && sv.boards[other].status == InProgress
                && Share(sv.boards[id].seats, sv.boards[other].seats) && !BothMoved(sv, other) {
      FreedByDraw(sv, id, other);
    }
  }

  lemma FreesThrough(sv: Service, id: RoomId, room: RoomId, s: Submission)
    requires Sane(sv) && id in sv.boards && Blocked(sv, id)
    requires id in Step(sv, Play(room, s)).boards && !Blocked(Step(sv, Play(room, s)), id)
    ensures room in sv.boards && room != id && sv.boards[room].status == InProgress
    ensures Share(sv.boards[id].seats, sv.boards[room].seats) && !BothMoved(sv, room)
  {
    var a := Play(room, s);
    assert [a][0] == a;
    StepOfOthers(sv, a, id);
    if room == id { PlayIsNext(sv, id, s); }
    BlockedIff(sv, id);
    BlockedIff(Step(sv, a), id);
    assert Disturbs(sv, a, id);
    CanMoveIff(View(sv, room));
  }

  /** Somebody without a move answers the shared player's move with an equal one. */
  lemma FreedByDraw(sv: Service, id: RoomId, other: RoomId)
    requires Sane(sv) && id in sv.boards && Blocked(sv, id)
    requires other in sv.boards && other != id && sv.boards[other].status == InProgress
    requires Share(sv.boards[id].seats, sv.boards[other].seats) && !BothMoved(sv, other)
    ensures exists room, s ::
      id in Step(sv, Play(room, s)).boards && !Blocked(Step(sv, Play(room, s)), id)
  {
    BlockedIff(sv, id);
    assert WellScored(View(sv, other));
    var seats, seats' := sv.boards[id].seats, sv.boards[other].seats;
    var p := if Seats(seats, seats'.player1) then seats'.player1 else seats'.player2;
    var x := if p == seats'.player1 then seats'.player2 else seats'.player1;
    ThrowDraw(sv, other, x, p);
    var a := Play(other, Submission(x.userId, Text(sv.moves[p])));
    assert [a][0] == a;
    StepOfOthers(sv, a, id);
    BlockedIff(Step(sv, a), id);
    assert !Blocked(Step(sv, Play(other, a.submission)), id);
  }

  lemma CompletionLeavesMoves(r: Room, s: Submission)
    requires r.status == InProgress && Next(r, s).status == Completed
    ensures Next(r, s).move1.Some? && Next(r, s).move2.Some?
  {
  }

  /** The deciding moves of a match stay on its two player objects, so a room that is opened over the same two objects
      next, in either seat order, is blocked from the start. */
  lemma RematchIsBlocked(sv: Service, id: RoomId, s: Submission, seats: Pairing)
    requires Sane(sv) && id in sv.boards && sv.boards[id].status == InProgress
    requires Step(sv, Play(id, s)).boards[id].status == Completed
    requires seats in {sv.boards[id].seats, Pairing(sv.boards[id].seats.player2, sv.boards[id].seats.player1)}
    ensures Blocked(Step(Step(sv, Play(id, s)), Open(seats)), sv.nextRoom)
  {
    hide Next, WellScored, FinalizesCompleted;
    PlayIsNext(sv, id, s);
    CompletionLeavesMoves(View(sv, id), s);
    BlockedIff(Step(Step(sv, Play(id, s)), Open(seats)), sv.nextRoom);
  }
}
