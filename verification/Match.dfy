/** The state machine of one game room whose players sit in no other live room: they submit moves in any order, rounds
    resolve when both have moved, and the room completes once.  `LiveRooms` puts the rooms together. */
module Match {
  import opened Lists
  import opened Wrappers
  import opened RpsEngine

  datatype Status = Waiting | InProgress | Completed | Abandoned

  datatype Round = Round(number: nat, move1: Move, move2: Move, winnerId: Option<string>)

  /** A room together with the pending move of each of its two player objects. */
  datatype Room = Room(
    p1: string, p2: string,
    move1: Option<Move>, move2: Option<Move>,
    status: Status, rounds: seq<Round>, current: nat,
    wins1: nat, wins2: nat, winnerId: Option<string>)

  datatype Submission = Submission(userId: string, move: string)

  datatype SubmitError = RoomNotFound | NotInProgress | InvalidMove | NotInRoom | AlreadySubmitted

  datatype Verdict = Accepted(room: Room) | Rejected(error: SubmitError)

  /** What `createRoom` makes of two player objects whose `move` fields are as given.  They are unset for
      matchmaking and invites; a squad passes its own stored entries, so there they may be left over. */
  function Opened(p1: string, p2: string, move1: Option<Move>, move2: Option<Move>): Room {
    Room(p1, p2, move1, move2, InProgress, [], 1, 0, 0, None)
  }

  function ResolveRoom(r: Room): Room
    requires r.move1.Some? && r.move2.Some?
  {
    var m1, m2 := r.move1.value, r.move2.value;
    var outcome := ResolveRound(m1, m2, r.p1, r.p2);
    var counted := r.(
      rounds := r.rounds + [Round(r.current, m1, m2, outcome.winnerId)],
      wins1 := if outcome.result == Player1 then r.wins1 + 1 else r.wins1,
      wins2 := if outcome.result == Player2 then r.wins2 + 1 else r.wins2);
    var result := ResolveMatch(counted.wins1, counted.wins2, r.p1, r.p2);
    if result.isComplete then counted.(status := Completed, winnerId := result.winnerId)
    else counted.(current := r.current + 1, move1 := None, move2 := None)
  }

  function Settle(r: Room): Room {
    if r.move1.Some? && r.move2.Some? then ResolveRoom(r) else r
  }

  function Submit(r: Room, s: Submission): Verdict {
    if r.status != InProgress then Rejected(NotInProgress)
    else if ParseMove(s.move).None? then Rejected(InvalidMove)
    else if s.userId != r.p1 && s.userId != r.p2 then Rejected(NotInRoom)
    else if s.userId == r.p1 then
      if r.move1.Some? then Rejected(AlreadySubmitted) else Accepted(Settle(r.(move1 := ParseMove(s.move))))
    else
      if r.move2.Some? then Rejected(AlreadySubmitted) else Accepted(Settle(r.(move2 := ParseMove(s.move))))
  }

  /** A rejected submission throws before anything is written. */
  function Next(r: Room, s: Submission): Room {
    match Submit(r, s)
    case Accepted(room) => room
    case Rejected(_) => r
  }

  function Run(r: Room, subs: seq<Submission>): Room
    decreases |subs|
  {
    if subs == [] then r else Run(Next(r, subs[0]), subs[1..])
  }

  /** The moves of player 1 (of player 2 when `second`) that a run accepts, in order. */
  function AcceptedMoves(r: Room, subs: seq<Submission>, second: bool): seq<Move>
    decreases |subs|
  {
    if subs == [] then []
    else
      var s := subs[0];
      var rest := AcceptedMoves(Next(r, s), subs[1..], second);
      if Submit(r, s).Accepted? && (s.userId == r.p1) != second && ParseMove(s.move).Some?
      then [ParseMove(s.move).value] + rest else rest
  }

  /** How often a run starts finalization: the submissions that move a room from in progress to completed. */
  function Finalizations(r: Room, subs: seq<Submission>): nat
    decreases |subs|
  {
    if subs == [] then 0
    else
      (if r.status == InProgress && Next(r, subs[0]).status == Completed then 1 else 0) +
      Finalizations(Next(r, subs[0]), subs[1..])
  }

  // ---------------------------------------------------------------------------------------------
  // What the submitted texts mean
  // ---------------------------------------------------------------------------------------------

  function PendingOf(r: Room, userId: string): Option<Move> {
    if userId == r.p1 then r.move1 else r.move2
  }

  function WinsOf(r: Room, userId: string): nat {
    if userId == r.p1 then r.wins1 else r.wins2
  }

  const TEXTS := {"rock", "paper", "scissors"}

  /** The first text wins against the second. */
  predicate WinsAgainst(s: string, t: string) {
    (s == "rock" && t == "scissors") || (s == "paper" && t == "rock") || (s == "scissors" && t == "paper")
  }

  /** Exactly the three texts are moves: a player of a room in progress without a pending move is accepted with them,
      and nobody is accepted with any other. */
  lemma AcceptedTexts(r: Room, s: Submission)
    ensures Submit(r, s).Accepted? ==> s.move in TEXTS
    ensures r.status == InProgress && s.userId in {r.p1, r.p2} && PendingOf(r, s.userId).None? ==>
      (Submit(r, s).Accepted? <==> s.move in TEXTS)
  {
  }

  /** Every other submission is refused, for the first of these reasons. */
  lemma RefusalsAre(r: Room, s: Submission)
    ensures
      var open, valid, inRoom := r.status == InProgress, s.move in TEXTS, s.userId in {r.p1, r.p2};
      && (Submit(r, s) == Rejected(NotInProgress) <==> !open)
      && (Submit(r, s) == Rejected(InvalidMove) <==> open && !valid)
      && (Submit(r, s) == Rejected(NotInRoom) <==> open && valid && !inRoom)
      && (Submit(r, s) == Rejected(AlreadySubmitted) <==> open && valid && inRoom && PendingOf(r, s.userId).Some?)
      && Submit(r, s) != Rejected(RoomNotFound)
  {
  }

  /** The second move of a round, against a pending move that an earlier submission left on its player, here or in
      another room: the round goes to whoever sent the winning text, and to nobody on equal texts. */
  lemma TextsDecideTheRound(r0: Room, first: Submission, r: Room, second: Submission)
    requires Submit(r0, first).Accepted? && PendingOf(Next(r0, first), first.userId).Some?
    requires {first.userId, second.userId} == {r.p1, r.p2} && first.userId != second.userId
    requires PendingOf(r, first.userId) == PendingOf(Next(r0, first), first.userId)
    requires Submit(r, second).Accepted?
    ensures
      var r' := Next(r, second);
      && WinsOf(r', second.userId) == WinsOf(r, second.userId) + (if WinsAgainst(second.move, first.move) then 1 else 0)
      && WinsOf(r', first.userId) == WinsOf(r, first.userId) + (if WinsAgainst(first.move, second.move) then 1 else 0)
      && |r'.rounds| == |r.rounds| + 1 && r'.rounds[..|r.rounds|] == r.rounds
      && r'.rounds[|r.rounds|].winnerId ==
           (if WinsAgainst(second.move, first.move) then Some(second.userId)
            else if WinsAgainst(first.move, second.move) then Some(first.userId) else None)
  {
    hide Submit, Next;
    PendingIsParsed(r0, first);
    PendingIsParsed(r, second);
    AcceptedTexts(r0, first);
    AcceptedTexts(r, second);
    DefeatsIsWinsAgainst(first.move, second.move);
    DefeatsIsWinsAgainst(second.move, first.move);
    SecondMoveResolves(r, second, first.userId);
  }

  lemma PendingIsParsed(r: Room, s: Submission)
    requires Submit(r, s).Accepted?
    ensures ParseMove(s.move).Some?
    ensures PendingOf(Next(r, s), s.userId).Some? ==> PendingOf(Next(r, s), s.userId) == ParseMove(s.move)
  {
  }

  lemma DefeatsIsWinsAgainst(s: string, t: string)
    requires s in TEXTS && t in TEXTS
    ensures ParseMove(s).Some? && ParseMove(t).Some?
    ensures Defeats(ParseMove(s).value, ParseMove(t).value) <==> WinsAgainst(s, t)
  {
    TextsDiffer();
  }

  lemma SecondMoveResolves(r: Room, s: Submission, other: string)
    requires Submit(r, s).Accepted? && {other, s.userId} == {r.p1, r.p2} && other != s.userId
    requires PendingOf(r, other).Some?
    ensures ParseMove(s.move).Some?
    ensures
      var r', m, n := Next(r, s), ParseMove(s.move).value, PendingOf(r, other).value;
      && WinsOf(r', s.userId) == WinsOf(r, s.userId) + (if Defeats(m, n) then 1 else 0)
      && WinsOf(r', other) == WinsOf(r, other) + (if Defeats(n, m) then 1 else 0)
      && |r'.rounds| == |r.rounds| + 1 && r'.rounds[..|r.rounds|] == r.rounds
      && r'.rounds[|r.rounds|].winnerId ==
           (if Defeats(m, n) then Some(s.userId) else if Defeats(n, m) then Some(other) else None)
  {
    hide ParseMove;
    assert s.userId in {r.p1, r.p2} && other in {r.p1, r.p2};
    if s.userId == r.p1 {
      assert other == r.p2;
    } else {
      assert s.userId == r.p2 && other == r.p1;
    }
  }

  lemma TextsDiffer()
    ensures "rock" != "paper" && "rock" != "scissors" && "paper" != "scissors"
  {
    assert "rock"[0] != "paper"[0] && "rock"[0] != "scissors"[0] && "paper"[0] != "scissors"[0];
  }

  // ---------------------------------------------------------------------------------------------
  // The synchronous reference: both move sequences are known, and round i plays xs[i] against ys[i]
  // ---------------------------------------------------------------------------------------------

  /** The number of the first n rounds in which xs beats ys. */
  function Wins(xs: seq<Move>, ys: seq<Move>, n: nat): nat
    requires n <= |xs| && n <= |ys|
  {
    if n == 0 then 0 else Wins(xs, ys, n - 1) + (if Beats(xs[n - 1]) == ys[n - 1] then 1 else 0)
  }

  predicate Decided(xs: seq<Move>, ys: seq<Move>, n: nat)
    requires n <= |xs| && n <= |ys|
  {
    Wins(xs, ys, n) >= 2 || Wins(ys, xs, n) >= 2
  }

  /** Two move sequences that one match can consume: neither player is more than one move ahead, and nothing is
      played once a player has two wins. */
  ghost predicate Consumable(xs: seq<Move>, ys: seq<Move>) {
    var n := Min(|xs|, |ys|);
    && |xs| <= |ys| + 1 && |ys| <= |xs| + 1
    && (forall k: nat :: k < n ==> !Decided(xs, ys, k))
    && (Decided(xs, ys, n) ==> |xs| == |ys|)
  }

  function SyncRounds(p1: string, p2: string, xs: seq<Move>, ys: seq<Move>): (rounds: seq<Round>)
    ensures |rounds| == Min(|xs|, |ys|)
  {
    seq(Min(|xs|, |ys|), i requires 0 <= i < Min(|xs|, |ys|) =>
      Round(i + 1, xs[i], ys[i],
            if Beats(xs[i]) == ys[i] then Some(p1) else if Beats(ys[i]) == xs[i] then Some(p2) else None))
  }

  /** The room after both sequences were played round by round. */
  function Played(p1: string, p2: string, xs: seq<Move>, ys: seq<Move>): Room {
    var n := Min(|xs|, |ys|);
    var done := Decided(xs, ys, n);
    Room(p1, p2,
         if done then Some(xs[n - 1]) else if |xs| > n then Some(xs[n]) else None,
         if done then Some(ys[n - 1]) else if |ys| > n then Some(ys[n]) else None,
         if done then Completed else InProgress,
         SyncRounds(p1, p2, xs, ys),
         if done then n else n + 1,
         Wins(xs, ys, n), Wins(ys, xs, n),
         if !done then None else if Wins(xs, ys, n) >= 2 then Some(p1) else Some(p2))
  }

  lemma {:induction false} WinsOfPrefix(xs: seq<Move>, ys: seq<Move>, xs': seq<Move>, ys': seq<Move>, n: nat)
    requires n <= |xs| && n <= |ys|
    requires xs <= xs' && ys <= ys'
    ensures Wins(xs', ys', n) == Wins(xs, ys, n)
  {
    if n > 0 {
      WinsOfPrefix(xs, ys, xs', ys', n - 1);
    }
  }

  lemma DecidedOfPrefix(xs: seq<Move>, ys: seq<Move>, xs': seq<Move>, ys': seq<Move>)
    requires xs <= xs' && ys <= ys'
    ensures forall k: nat :: k <= |xs| && k <= |ys| ==>
      Wins(xs', ys', k) == Wins(xs, ys, k) && Wins(ys', xs', k) == Wins(ys, xs, k)
  {
    forall k: nat | k <= |xs| && k <= |ys|
      ensures Wins(xs', ys', k) == Wins(xs, ys, k) && Wins(ys', xs', k) == Wins(ys, xs, k)
    {
      WinsOfPrefix(xs, ys, xs', ys', k);
      WinsOfPrefix(ys, xs, ys', xs', k);
    }
  }

  lemma ConsumableExtends(xs: seq<Move>, ys: seq<Move>, xs': seq<Move>, ys': seq<Move>)
    requires Consumable(xs, ys) && !Decided(xs, ys, Min(|xs|, |ys|))
    requires xs <= xs' && ys <= ys' && |xs'| + |ys'| == |xs| + |ys| + 1
    requires |xs'| <= |ys'| + 1 && |ys'| <= |xs'| + 1
    ensures Consumable(xs', ys')
  {
    DecidedOfPrefix(xs, ys, xs', ys');
    forall k: nat | k < Min(|xs'|, |ys'|) ensures !Decided(xs', ys', k) {
      assert k < Min(|xs|, |ys|) ==> !Decided(xs, ys, k);
    }
  }

  /** The room after the move that completes round n + 1 of the reference. */
  lemma RoundIsPlayed(p1: string, p2: string, xs: seq<Move>, ys: seq<Move>, m1: Move, m2: Move)
    requires p1 != p2 && |xs| == |ys| && !Decided(xs, ys, |xs|)
    ensures ResolveRoom(Played(p1, p2, xs, ys).(move1 := Some(m1), move2 := Some(m2))) ==
      Played(p1, p2, xs + [m1], ys + [m2])
  {
    DecidedOfPrefix(xs, ys, xs + [m1], ys + [m2]);
    assert SyncRounds(p1, p2, xs + [m1], ys + [m2])
        == SyncRounds(p1, p2, xs, ys) + [Round(|xs| + 1, m1, m2, ResolveRound(m1, m2, p1, p2).winnerId)];
  }

  /** The first of the two moves of a round only waits. */
  lemma FirstMoveIsPlayed(p1: string, p2: string, xs: seq<Move>, ys: seq<Move>, m: Move)
    requires p1 != p2 && |xs| == |ys| && !Decided(xs, ys, |xs|)
    ensures Played(p1, p2, xs, ys).(move1 := Some(m)) == Played(p1, p2, xs + [m], ys)
    ensures Played(p1, p2, xs, ys).(move2 := Some(m)) == Played(p1, p2, xs, ys + [m])
  {
    DecidedOfPrefix(xs, ys, xs + [m], ys);
    DecidedOfPrefix(xs, ys, xs, ys + [m]);
    assert SyncRounds(p1, p2, xs + [m], ys) == SyncRounds(p1, p2, xs, ys) == SyncRounds(p1, p2, xs, ys + [m]);
  }

  /** One accepted move is one more move of that player in the synchronous reference. */
  lemma AcceptIsAppend(p1: string, p2: string, xs: seq<Move>, ys: seq<Move>, s: Submission)
    requires p1 != p2 && Consumable(xs, ys)
    requires Submit(Played(p1, p2, xs, ys), s).Accepted?
    ensures ParseMove(s.move).Some? && s.userId in {p1, p2}
    ensures
      var m := ParseMove(s.move).value;
      var (xs', ys') := if s.userId == p1 then (xs + [m], ys) else (xs, ys + [m]);
      Consumable(xs', ys') && Next(Played(p1, p2, xs, ys), s) == Played(p1, p2, xs', ys')
  {
    var r, m, n := Played(p1, p2, xs, ys), ParseMove(s.move).value, Min(|xs|, |ys|);
    var xs', ys' := if s.userId == p1 then xs + [m] else xs, if s.userId == p1 then ys else ys + [m];
    ConsumableExtends(xs, ys, xs', ys');
    if |xs| == |ys| {
      FirstMoveIsPlayed(p1, p2, xs, ys, m);
    } else {
      var ahead := if |xs| > n then xs[n] else ys[n];
      if |xs| > n {
        assert xs == xs[..n] + [ahead] && ys == ys[..n];
        DecidedOfPrefix(xs[..n], ys, xs, ys);
        FirstMoveIsPlayed(p1, p2, xs[..n], ys, ahead);
        RoundIsPlayed(p1, p2, xs[..n], ys, ahead, m);
      } else {
        assert ys == ys[..n] + [ahead] && xs == xs[..n];
        DecidedOfPrefix(xs, ys[..n], xs, ys);
        FirstMoveIsPlayed(p1, p2, xs, ys[..n], ahead);
        RoundIsPlayed(p1, p2, xs, ys[..n], m, ahead);
      }
    }
  }

  /** The step of `AsyncRefinesSync`, for one submission that is rejected or accepted. */
  lemma StepRefinesSync(p1: string, p2: string, xs: seq<Move>, ys: seq<Move>, s: Submission)
    returns (xs': seq<Move>, ys': seq<Move>)
    requires p1 != p2 && Consumable(xs, ys)
    ensures Consumable(xs', ys')
    ensures Next(Played(p1, p2, xs, ys), s) == Played(p1, p2, xs', ys')
    ensures forall rest: seq<Submission> ::
      var r := Played(p1, p2, xs, ys);
      && xs + AcceptedMoves(r, [s] + rest, false) == xs' + AcceptedMoves(Next(r, s), rest, false)
      && ys + AcceptedMoves(r, [s] + rest, true) == ys' + AcceptedMoves(Next(r, s), rest, true)
  {
    var r := Played(p1, p2, xs, ys);
    if Submit(r, s).Accepted? {
      AcceptIsAppend(p1, p2, xs, ys, s);
      var m := ParseMove(s.move).value;
      xs', ys' := if s.userId == p1 then xs + [m] else xs, if s.userId == p1 then ys else ys + [m];
    } else {
      xs', ys' := xs, ys;
    }
    var next := Next(r, s);
    forall rest: seq<Submission>
      ensures xs + AcceptedMoves(r, [s] + rest, false) == xs' + AcceptedMoves(next, rest, false)
      ensures ys + AcceptedMoves(r, [s] + rest, true) == ys' + AcceptedMoves(next, rest, true)
    {
      assert ([s] + rest)[1..] == rest;
    }
  }

  /** Asynchronous play refines synchronous rounds: whatever the interleaving, and whatever rejected submissions
      it contains, the room depends only on the two sequences of accepted moves. */
  lemma {:induction false} AsyncRefinesSync(p1: string, p2: string, xs: seq<Move>, ys: seq<Move>, r: Room,
                                            subs: seq<Submission>)
    requires p1 != p2 && Consumable(xs, ys) && r == Played(p1, p2, xs, ys)
    ensures Consumable(xs + AcceptedMoves(r, subs, false), ys + AcceptedMoves(r, subs, true))
    ensures Run(r, subs) == Played(p1, p2, xs + AcceptedMoves(r, subs, false), ys + AcceptedMoves(r, subs, true))
    decreases |subs|
  {
    if subs == [] {
      assert xs + [] == xs && ys + [] == ys;
    } else {
      var xs', ys' := StepRefinesSync(p1, p2, xs, ys, subs[0]);
      assert subs == [subs[0]] + subs[1..];
      AsyncRefinesSync(p1, p2, xs', ys', Next(r, subs[0]), subs[1..]);
    }
  }

  function Pending(move: Option<Move>): seq<Move> {
    match move
    case None => []
    case Some(m) => [m]
  }

  /** A room opened with a left-over move plays as if that move had been this player's first submission. */
  lemma OpenedIsPlayed(p1: string, p2: string, move1: Option<Move>, move2: Option<Move>)
    requires move1.None? || move2.None?
    ensures Consumable(Pending(move1), Pending(move2))
    ensures Opened(p1, p2, move1, move2) == Played(p1, p2, Pending(move1), Pending(move2))
  {
    assert SyncRounds(p1, p2, Pending(move1), Pending(move2)) == [];
  }

  /** Two runs of rooms opened alike agree as soon as the accepted moves of each player agree. */
  lemma InterleavingIsIrrelevant(p1: string, p2: string, move1: Option<Move>, move2: Option<Move>,
                                 subs: seq<Submission>, subs': seq<Submission>)
    requires p1 != p2 && (move1.None? || move2.None?)
    requires forall second: bool ::
      AcceptedMoves(Opened(p1, p2, move1, move2), subs, second) ==
        AcceptedMoves(Opened(p1, p2, move1, move2), subs', second)
    ensures Run(Opened(p1, p2, move1, move2), subs) == Run(Opened(p1, p2, move1, move2), subs')
  {
    OpenedIsPlayed(p1, p2, move1, move2);
    AsyncRefinesSync(p1, p2, Pending(move1), Pending(move2), Opened(p1, p2, move1, move2), subs);
    AsyncRefinesSync(p1, p2, Pending(move1), Pending(move2), Opened(p1, p2, move1, move2), subs');
  }

  // ---------------------------------------------------------------------------------------------
  // Swapping the players
  // ---------------------------------------------------------------------------------------------

  function SwapId(p1: string, p2: string, id: Option<string>): Option<string> {
    if id == Some(p1) then Some(p2) else if id == Some(p2) then Some(p1) else id
  }

  function Mirror(r: Room): Room {
    Room(r.p1, r.p2, r.move2, r.move1, r.status,
         seq(|r.rounds|, i requires 0 <= i < |r.rounds| =>
           Round(r.rounds[i].number, r.rounds[i].move2, r.rounds[i].move1, SwapId(r.p1, r.p2, r.rounds[i].winnerId))),
         r.current, r.wins2, r.wins1, SwapId(r.p1, r.p2, r.winnerId))
  }

  /** A round is won by at most one side, so both cannot reach two wins together. */
  lemma NotBothAtTwo(xs: seq<Move>, ys: seq<Move>)
    requires Consumable(xs, ys)
    ensures
      var n := Min(|xs|, |ys|);
      Wins(xs, ys, n) <= 2 && Wins(ys, xs, n) <= 2 && Wins(xs, ys, n) + Wins(ys, xs, n) <= 3
  {
    var n := Min(|xs|, |ys|);
    if n > 0 {
      assert !Decided(xs, ys, n - 1);
    }
  }

  /** The rules favour neither seat: exchanging the two move sequences exchanges the outcome. */
  lemma SwappingMovesSwapsOutcome(p1: string, p2: string, xs: seq<Move>, ys: seq<Move>)
    requires p1 != p2 && Consumable(xs, ys)
    ensures Consumable(ys, xs)
    ensures Played(p1, p2, ys, xs) == Mirror(Played(p1, p2, xs, ys))
  {
    NotBothAtTwo(xs, ys);
    var n := Min(|xs|, |ys|);
    forall k: nat | k < n ensures !Decided(ys, xs, k) {
      assert !Decided(xs, ys, k);
    }
    assert SyncRounds(p1, p2, ys, xs) == Mirror(Played(p1, p2, xs, ys)).rounds;
  }

  // ---------------------------------------------------------------------------------------------
  // What holds of every reachable room
  // ---------------------------------------------------------------------------------------------

  function RoundsWonBy(id: string, rounds: seq<Round>): nat {
    if rounds == [] then 0
    else RoundsWonBy(id, rounds[..|rounds| - 1]) + (if rounds[|rounds| - 1].winnerId == Some(id) then 1 else 0)
  }

  lemma {:induction false} WinsCountRounds(p1: string, p2: string, xs: seq<Move>, ys: seq<Move>, k: nat)
    requires p1 != p2 && k <= Min(|xs|, |ys|)
    ensures RoundsWonBy(p1, SyncRounds(p1, p2, xs, ys)[..k]) == Wins(xs, ys, k)
    ensures RoundsWonBy(p2, SyncRounds(p1, p2, xs, ys)[..k]) == Wins(ys, xs, k)
  {
    if k > 0 {
      WinsCountRounds(p1, p2, xs, ys, k - 1);
      var rounds := SyncRounds(p1, p2, xs, ys);
      assert rounds[..k][..k - 1] == rounds[..k - 1];
    }
  }

  /** The promises a room keeps whatever moves are pending: counters are what the rounds say, rounds are numbered from
      one, and a completed room was won by the first player to take two rounds, with at most three decisive rounds. */
  ghost predicate WellScored(r: Room) {
    && r.wins1 == RoundsWonBy(r.p1, r.rounds) && r.wins2 == RoundsWonBy(r.p2, r.rounds)
    && (forall i :: 0 <= i < |r.rounds| ==> r.rounds[i].number == i + 1)
    && r.wins1 + r.wins2 <= 3
    && (forall k :: 0 <= k < |r.rounds| ==>
          RoundsWonBy(r.p1, r.rounds[..k]) < 2 && RoundsWonBy(r.p2, r.rounds[..k]) < 2)
    && (r.status == InProgress || r.status == Completed)
    && (r.status == InProgress ==> r.wins1 < 2 && r.wins2 < 2 && r.winnerId.None? && r.current == |r.rounds| + 1)
    && (r.status == Completed ==>
          && ((r.winnerId == Some(r.p1) && r.wins1 == 2 && r.wins2 <= 1) ||
              (r.winnerId == Some(r.p2) && r.wins2 == 2 && r.wins1 <= 1))
          && r.current == |r.rounds|)
  }

  /** Besides, a room in progress waits for a move, and a completed one still has its deciding moves. */
  ghost predicate WellPlayed(r: Room) {
    && WellScored(r)
    && (r.status == InProgress ==> r.move1.None? || r.move2.None?)
    && (r.status == Completed ==> r.move1.Some? && r.move2.Some?)
  }

  lemma ResolvingKeepsScore(r: Room)
    requires r.p1 != r.p2 && WellScored(r) && r.status == InProgress && r.move1.Some? && r.move2.Some?
    ensures WellScored(ResolveRoom(r))
  {
    var next := ResolveRoom(r);
    assert next.rounds[..|r.rounds|] == r.rounds;
    assert r.rounds[..|r.rounds|] == r.rounds;
    forall k | 0 <= k < |next.rounds| ensures next.rounds[..k] == r.rounds[..k] {
    }
  }

  /** A submission keeps the score right, wherever the pending moves come from. */
  lemma NextKeepsScore(r: Room, s: Submission)
    requires r.p1 != r.p2 && WellScored(r)
    ensures WellScored(Next(r, s))
  {
    if Submit(r, s).Accepted? {
      var moved := if s.userId == r.p1 then r.(move1 := ParseMove(s.move)) else r.(move2 := ParseMove(s.move));
      assert WellScored(moved);
      if moved.move1.Some? && moved.move2.Some? {
        ResolvingKeepsScore(moved);
      }
    }
  }

  lemma PlayedIsWellPlayed(p1: string, p2: string, xs: seq<Move>, ys: seq<Move>)
    requires p1 != p2 && Consumable(xs, ys)
    ensures WellPlayed(Played(p1, p2, xs, ys))
  {
    var r := Played(p1, p2, xs, ys);
    NotBothAtTwo(xs, ys);
    forall k | 0 <= k <= |r.rounds|
      ensures RoundsWonBy(p1, r.rounds[..k]) == Wins(xs, ys, k) && RoundsWonBy(p2, r.rounds[..k]) == Wins(ys, xs, k)
    {
      WinsCountRounds(p1, p2, xs, ys, k);
    }
    assert r.rounds[..|r.rounds|] == r.rounds;
    forall k: nat | k < |r.rounds| ensures RoundsWonBy(p1, r.rounds[..k]) < 2 && RoundsWonBy(p2, r.rounds[..k]) < 2 {
      assert !Decided(xs, ys, k);
    }
  }

  lemma EveryRoomIsWellPlayed(p1: string, p2: string, move1: Option<Move>, move2: Option<Move>, subs: seq<Submission>)
    requires p1 != p2 && (move1.None? || move2.None?)
    ensures WellPlayed(Run(Opened(p1, p2, move1, move2), subs))
  {
    OpenedIsPlayed(p1, p2, move1, move2);
    AsyncRefinesSync(p1, p2, Pending(move1), Pending(move2), Opened(p1, p2, move1, move2), subs);
    var r := Opened(p1, p2, move1, move2);
    PlayedIsWellPlayed(p1, p2, Pending(move1) + AcceptedMoves(r, subs, false),
      Pending(move2) + AcceptedMoves(r, subs, true));
  }

  /** Finalization starts exactly once for a completed room and never for one still in progress. */
  lemma {:induction false} FinalizesExactlyOnce(r: Room, subs: seq<Submission>)
    requires r.status in {InProgress, Completed}
    ensures Run(r, subs).status in {InProgress, Completed}
    ensures Finalizations(r, subs) == (if r.status == InProgress && Run(r, subs).status == Completed then 1 else 0)
    ensures r.status == Completed ==> Run(r, subs) == r
    decreases |subs|
  {
    if subs != [] {
      FinalizesExactlyOnce(Next(r, subs[0]), subs[1..]);
    }
  }

  // ---------------------------------------------------------------------------------------------
  // Progress, and the rooms a squad opens with left-over moves
  // ---------------------------------------------------------------------------------------------

  /** Somebody can move exactly while the room is in progress and one of the two moves is missing. */
  lemma CanMoveIff(r: Room)
    requires r.p1 != r.p2
    ensures (exists s :: Submit(r, s).Accepted?) <==> r.status == InProgress && (r.move1.None? || r.move2.None?)
  {
    if r.status == InProgress && r.move1.None? {
      assert Submit(r, Submission(r.p1, "rock")).Accepted?;
    } else if r.status == InProgress && r.move2.None? {
      assert Submit(r, Submission(r.p2, "rock")).Accepted?;
    }
  }

  lemma {:induction false} StuckForever(r: Room, subs: seq<Submission>)
    requires r.move1.Some? && r.move2.Some?
    ensures Run(r, subs) == r
  {
    if subs != [] {
      StuckForever(r, subs[1..]);
    }
  }

  /** A room that is alone with its players never gets stuck, for every opening with at most one left-over move: as
      long as it is in progress some player can move.  With two left-over moves it accepts nothing. */
  lemma LiveIffNotBothLeftOver(p1: string, p2: string, move1: Option<Move>, move2: Option<Move>)
    requires p1 != p2
    ensures (move1.None? || move2.None?) <==>
      (forall subs :: Run(Opened(p1, p2, move1, move2), subs).status == InProgress ==>
         exists s :: Submit(Run(Opened(p1, p2, move1, move2), subs), s).Accepted?)
  {
    var r := Opened(p1, p2, move1, move2);
    if move1.None? || move2.None? {
      forall subs | Run(r, subs).status == InProgress
        ensures exists s :: Submit(Run(r, subs), s).Accepted?
      {
        EveryRoomIsWellPlayed(p1, p2, move1, move2, subs);
        RunKeepsPlayers(r, subs);
        CanMoveIff(Run(r, subs));
      }
    } else {
      CanMoveIff(r);
      assert Run(r, []) == r;
    }
  }

  lemma {:induction false} RunKeepsPlayers(r: Room, subs: seq<Submission>)
    ensures Run(r, subs).p1 == r.p1 && Run(r, subs).p2 == r.p2
    decreases |subs|
  {
    if subs != [] {
      RunKeepsPlayers(Next(r, subs[0]), subs[1..]);
    }
  }
}
