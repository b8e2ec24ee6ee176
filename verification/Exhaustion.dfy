/** How many matches a squad gets: without forfeits, and with a new entry for every join, fewer than it had joins. */
module Exhaustion {
  import opened Wrappers
  import opened Lists
  import opened Players
  import opened KingOfTheHill
  import opened SquadWorld
  import opened LiveRooms
  import opened RoomLiveness
  import opened Disconnects
  import opened Arena
  import opened Stalling
  import Match
  import RpsEngine
  import Forfeits
  import StrandedEntries

  /** The number of entries that have not finished a match. */
  ghost function Fresh(sv: Service, queue: seq<PlayerState>): nat {
    if queue == [] then 0 else (if HasFinished(sv, queue[0]) then 0 else 1) + Fresh(sv, queue[1..])
  }

  /** How many more matches the squad can end without further joins; one less than it has players before its first. */
  ghost function Credit(sv: Service, h: Hill): int {
    if h.room.None? then |h.queue| - 1
    else if h.room.value in sv.boards && Blocked(sv, h.room.value) then 0
    else Fresh(sv, h.queue) + 1
  }

  /** The deed ends the squad's match. */
  ghost predicate EndsMatch(a: State, deed: Deed, squad: SquadId) {
    deed.Finish? && RequestOf(a, deed).Some? && HillOf(a.world, squad).room == Some(deed.room)
  }

  ghost function MatchesEnded(a: State, deeds: seq<Deed>, squad: SquadId): nat
    decreases |deeds|
  {
    if deeds == [] then 0
    else (if EndsMatch(a, deeds[0], squad) then 1 else 0) + MatchesEnded(Arena.Step(a, deeds[0]), deeds[1..], squad)
  }

  predicate Joins(deed: Deed, squad: SquadId) {
    deed.Ask? && deed.request.JoinSquad? && deed.request.squad == squad
  }

  function JoinsOf(deeds: seq<Deed>, squad: SquadId): nat {
    if deeds == [] then 0 else (if Joins(deeds[0], squad) then 1 else 0) + JoinsOf(deeds[1..], squad)
  }

  // ---------------------------------------------------------------------------------------------
  // Counting the queue
  // ---------------------------------------------------------------------------------------------

  lemma {:induction false} FreshOfConcat(sv: Service, q: seq<PlayerState>, r: seq<PlayerState>)
    ensures Fresh(sv, q + r) == Fresh(sv, q) + Fresh(sv, r)
  {
    if q == [] {
      assert q + r == r;
    } else {
      assert (q + r)[0] == q[0] && (q + r)[1..] == q[1..] + r;
      FreshOfConcat(sv, q[1..], r);
    }
  }

  lemma FreshOfOne(sv: Service, p: PlayerState)
    ensures Fresh(sv, [p]) == if HasFinished(sv, p) then 0 else 1
  {
  }

  lemma FreshOfRemoval(sv: Service, queue: seq<PlayerState>, i: nat)
    requires i < |queue|
    ensures Fresh(sv, RemoveAt(queue, i)) <= Fresh(sv, queue)
  {
    assert queue == queue[..i] + ([queue[i]] + queue[i + 1..]);
    FreshOfConcat(sv, queue[..i], [queue[i]] + queue[i + 1..]);
    FreshOfConcat(sv, [queue[i]], queue[i + 1..]);
    FreshOfConcat(sv, queue[..i], queue[i + 1..]);
  }

  lemma {:induction false} FreshWithout(sv: Service, queue: seq<PlayerState>, userId: string)
    ensures Fresh(sv, Without(queue, userId)) <= Fresh(sv, queue) && |Without(queue, userId)| <= |queue|
  {
    if queue != [] {
      FreshWithout(sv, queue[1..], userId);
      var rest := Without(queue[1..], userId);
      assert ([queue[0]] + rest)[1..] == rest;
    }
  }

  ghost predicate FinishedStay(sv: Service, sv': Service) {
    forall r ::
      r in sv.boards && sv.boards[r].status == Match.Completed ==> r in sv'.boards && sv'.boards[r] == sv.boards[r]
  }

  lemma FinishedStays(sv: Service, sv': Service, p: PlayerState)
    requires FinishedStay(sv, sv') && HasFinished(sv, p)
    ensures HasFinished(sv', p)
  {
    var r :| r in sv.boards && sv.boards[r].status == Match.Completed && Seats(sv.boards[r].seats, p);
    assert sv'.boards[r] == sv.boards[r];
  }

  lemma {:induction false} FreshShrinks(sv: Service, sv': Service, queue: seq<PlayerState>)
    requires FinishedStay(sv, sv')
    ensures Fresh(sv', queue) <= Fresh(sv, queue)
  {
    if queue != [] {
      FreshShrinks(sv, sv', queue[1..]);
      if HasFinished(sv, queue[0]) { FinishedStays(sv, sv', queue[0]); }
    }
  }

  lemma PlayedStay(sv: Service, room: RoomId, s: Match.Submission)
    requires Sane(sv)
    ensures FinishedStay(sv, LiveRooms.Step(sv, Play(room, s)))
  {
    hide AllScored, FinalizesCompleted, Match.Next;
    if room in sv.boards { PlayIsNext(sv, room, s); }
  }

  // ---------------------------------------------------------------------------------------------
  // The credit of one squad
  // ---------------------------------------------------------------------------------------------

  /** An event that ends no match. */
  predicate Quiet(h: Hill, ev: Event) {
    match ev
    case Disconnect(closed) =>
      SocketIndex(h.queue, closed) >= 0 || (!ChampionForfeits(h, closed) && !ChallengerForfeits(h, closed))
    case MatchEnd(_) => false
    case RoomReady(_) => false
    case _ => true
  }

  /** A match in progress goes on, and only a join makes the queue longer. */
  lemma QuietQueue(h: Hill, ev: Event, sv: Service)
    requires Busy(h) && Quiet(h, ev)
    ensures
      var h', joined := KingOfTheHill.Step(h, ev), if ev.Join? then 1 else 0;
      if h.inProgress then h'.inProgress && Fresh(sv, h'.queue) <= Fresh(sv, h.queue) + joined
      else if h'.inProgress then joined == 1 && |h.queue| == 1 && h'.queue == []
      else |h'.queue| <= |h.queue| + joined
  {
    match ev
    case Join(player) =>
      FreshOfConcat(sv, h.queue, [player]);
    case Leave(userId) => FreshWithout(sv, h.queue, userId);
    case Disconnect(closed) =>
      var i := SocketIndex(h.queue, closed);
      if i >= 0 { FreshOfRemoval(sv, h.queue, i); }
  }

  lemma SquadIsBusy(a: State, squad: SquadId)
    requires Consistent(a)
    ensures
      var h := HillOf(a.world, squad);
      Busy(h) && (h.room.Some? <==> h.inProgress) && (h.room.Some? ==> squad in a.world.hills)
  {
    if squad in a.world.hills { assert Linked(a.world.hills[squad], a.world.rooms); }
  }

  lemma RequestQueue(w: World, request: Request, squad: SquadId, sv: Service)
    requires AllUnique(w) && CalmRequest(w, request)
    requires !(request.Notice? && HillOf(w, squad).room == Some(request.room))
    ensures
      var h, h' := HillOf(w, squad), HillOf(SquadWorld.Step(w, request), squad);
      var joined := if request.JoinSquad? && request.squad == squad then 1 else 0;
      if h.inProgress then h'.inProgress && Fresh(sv, h'.queue) <= Fresh(sv, h.queue) + joined
      else if h'.inProgress then joined == 1 && |h.queue| == 1 && h'.queue == []
      else |h'.queue| <= |h.queue| + joined
  {
    hide SquadWorld.Step, KingOfTheHill.Step;
    StepIsHillStep(w, request);
    if Subject(w, request) == Some(squad) {
      HillIsUnique(w, squad);
      QuietQueue(HillOf(w, squad), HillEvent(w, request), sv);
    }
  }

  /** A request that ends no match of the squad spends nothing and earns at most one by a join. */
  lemma RequestKeepsCredit(a: State, deed: Deed, squad: SquadId)
    requires Settled(a) && Calm(a, deed) && RequestOf(a, deed).Some? && !EndsMatch(a, deed, squad)
    ensures
      var a' := Arena.Step(a, deed);
      Credit(a'.service, HillOf(a'.world, squad)) <=
        Credit(a.service, HillOf(a.world, squad)) + if Joins(deed, squad) then 1 else 0
  {
    hide SquadWorld.Step, KingOfTheHill.Step, Busy, AllLinked, AllUnique, Sane, Dense, ProperRooms, Blocked, Calm;
    hide Known, Apart, OnlyCurrent, MovesAreLeftOver, MovesAreSeated;
    var a', request := Arena.Step(a, deed), RequestOf(a, deed).value;
    var h, h' := HillOf(a.world, squad), HillOf(a'.world, squad);
    ProperOfCalm(a, deed);
    StepKeepsConsistent(a, deed);
    WorldAfterIs(a, deed);
    DeedOpens(a, deed);
    SquadIsBusy(a, squad);
    SquadIsBusy(a', squad);
    CalmAsRequest(a, deed);
    RequestQueue(a.world, request, squad, a.service);
    FreshShrinks(a.service, a'.service, h'.queue);
    if h.room.Some? && h.room.value in a.service.boards && Blocked(a.service, h.room.value) {
      DeedKeepsStalled(a, deed, squad, h.room.value);
    }
  }

  lemma SubmitKeepsCredit(a: State, deed: Deed, squad: SquadId)
    requires Settled(a) && deed.Submit?
    ensures
      var a' := Arena.Step(a, deed);
      Credit(a'.service, HillOf(a'.world, squad)) <= Credit(a.service, HillOf(a.world, squad))
  {
    hide LiveRooms.Step, Blocked, Settled, AllLinked, AllUnique, Sane, Dense, ProperRooms, Synced;
    ConsistentOfSettled(a);
    var a', h := Arena.Step(a, deed), HillOf(a.world, squad);
    SquadIsBusy(a, squad);
    PlayedStay(a.service, deed.room, deed.submission);
    FreshShrinks(a.service, a'.service, h.queue);
    if h.room.Some? && h.room.value in a.service.boards && Blocked(a.service, h.room.value) {
      PlayKeepsStalled(a, squad, h.room.value, deed.room, deed.submission);
    }
  }

  /** The order of the squad after a match end that is not followed by a blocked room. */
  lemma EndSpendsOne(a: State, squad: SquadId, room: RoomId)
    requires Settled(a) && EndsMatch(a, Finish(room), squad)
    ensures
      var a' := Arena.Step(a, Finish(room));
      && Credit(a'.service, HillOf(a'.world, squad)) + 1 <= Credit(a.service, HillOf(a.world, squad))
      && Credit(a.service, HillOf(a.world, squad)) >= 1
  {
    hide EndMatch, Roster, Sane, Arena.Step, AllLinked, AllUnique, Dense, ProperRooms, Blocked;
    hide Apart, Known, OnlyCurrent, MovesAreLeftOver, MovesAreSeated;
    var sv, h, n := a.service, a.world.hills[squad], a.world.nextRoom;
    var a' := Arena.Step(a, Finish(room));
    var h' := EndMatch(h, sv.boards[room].winnerId);
    CompletedIsNotBlocked(a, room);
    FinishOpens(a, squad, room);
    NextRoomIsBlockedIff(a, squad, room);
    WinnerStays(a, squad, room);
    BothHaveFinished(a, squad, room);
    if !Blocked(a'.service, n) {
      QueueAfterEnd(sv, h, h');
      FreshShrinks(sv, a'.service, h'.queue);
    }
  }

  lemma CompletedIsNotBlocked(a: State, room: RoomId)
    requires Consistent(a) && room in a.service.finalizing
    ensures room in a.service.boards && a.service.boards[room].status == Match.Completed && !Blocked(a.service, room)
  {
  }

  lemma BothHaveFinished(a: State, squad: SquadId, room: RoomId)
    requires Consistent(a) && squad in a.world.hills && a.world.hills[squad].room == Some(room)
    requires room in a.service.finalizing && CanEnd(a.world.hills[squad])
    ensures HasFinished(a.service, a.world.hills[squad].champion.value)
    ensures HasFinished(a.service, a.world.hills[squad].challenger.value)
  {
    hide Sane, AllUnique, Dense, ProperRooms;
    CompletedIsNotBlocked(a, room);
    assert Linked(a.world.hills[squad], a.world.rooms);
    assert Seats(a.service.boards[room].seats, a.world.hills[squad].champion.value);
    assert Seats(a.service.boards[room].seats, a.world.hills[squad].challenger.value);
  }

  /** One player wins, everybody moves up, and the loser goes last. */
  lemma QueueAfterEnd(sv: Service, h: Hill, h': Hill)
    requires CanEnd(h) && CanEnd(h')
    requires HasFinished(sv, h.champion.value) && HasFinished(sv, h.challenger.value)
    requires !HasFinished(sv, h'.challenger.value)
    requires
      var line := Order(h');
      && |line| == |h.queue| + 2 && line[1..|line| - 1] == h.queue
      && line[|line| - 1] in {h.champion.value, h.challenger.value}
    ensures Fresh(sv, h'.queue) + 1 == Fresh(sv, h.queue)
  {
    var line := Order(h');
    assert line == [h'.champion.value, h'.challenger.value] + h'.queue;
    var loser := line[|line| - 1];
    assert h.queue != [];
    assert h.queue[0] == h'.challenger.value;
    assert h'.queue == h.queue[1..] + [loser];
    FreshOfConcat(sv, h.queue[1..], [loser]);
    FreshOfOne(sv, loser);
  }

  /** A squad of any size, over every calm run: its matches end at most as often as its credit and more joins allow. */
  lemma {:induction false} EndsAreCredited(a: State, deeds: seq<Deed>, squad: SquadId)
    requires Settled(a) && AllCalm(a, deeds)
    ensures
      var ended := MatchesEnded(a, deeds, squad);
      ended == 0 || ended <= Credit(a.service, HillOf(a.world, squad)) + JoinsOf(deeds, squad)
    decreases |deeds|
  {
    hide Settled, Calm, Credit, Arena.Step, EndsMatch, Joins, HillOf;
    if deeds != [] {
      var deed := deeds[0];
      DeedKeepsCredit(a, deed, squad);
      StepKeepsSettled(a, deed);
      EndsAreCredited(Arena.Step(a, deed), deeds[1..], squad);
    }
  }

  lemma DeedKeepsCredit(a: State, deed: Deed, squad: SquadId)
    requires Settled(a) && Calm(a, deed)
    ensures
      var a' := Arena.Step(a, deed);
      Credit(a'.service, HillOf(a'.world, squad)) + (if EndsMatch(a, deed, squad) then 1 else 0)
        <= Credit(a.service, HillOf(a.world, squad)) + (if Joins(deed, squad) then 1 else 0)
    ensures EndsMatch(a, deed, squad) ==> Credit(a.service, HillOf(a.world, squad)) >= 1
  {
    hide Settled, Calm, Credit, Arena.Step, HillOf;
    if EndsMatch(a, deed, squad) {
      EndSpendsOne(a, squad, deed.room);
    } else if deed.Submit? {
      SubmitKeepsCredit(a, deed, squad);
    } else if RequestOf(a, deed).Some? {
      RequestKeepsCredit(a, deed, squad);
    } else {
      ConsistentOfSettled(a);
      NothingAsked(a, deed);
    }
  }

  /** From nothing: a squad ends fewer matches than it has had joins, whoever wins them. */
  lemma FewerMatchesThanJoins(deeds: seq<Deed>, squad: SquadId)
    requires AllCalm(NOTHING_YET, deeds) && MatchesEnded(NOTHING_YET, deeds, squad) > 0
    ensures MatchesEnded(NOTHING_YET, deeds, squad) < JoinsOf(deeds, squad)
  {
    EndsAreCredited(NOTHING_YET, deeds, squad);
  }

  // ---------------------------------------------------------------------------------------------
  // The bound is met
  // ---------------------------------------------------------------------------------------------

  const ROCK := "rock"
  const SCISSORS := "scissors"

  /** A and B join, and A wins two rounds. */
  function TwoRounds(squad: SquadId, a: PlayerState, b: PlayerState): seq<Deed> {
    [Ask(JoinSquad(squad, a, "a")), Ask(JoinSquad(squad, b, "b")),
     Submit(0, Match.Submission(a.userId, ROCK)), Submit(0, Match.Submission(b.userId, SCISSORS)),
     Submit(0, Match.Submission(a.userId, ROCK)), Submit(0, Match.Submission(b.userId, SCISSORS))]
  }

  /** On these moves the room completes with the last one. */
  lemma TwoRoundsComplete(p1: string, p2: string)
    requires p1 != p2
    ensures
      var r3 := Match.Next(Match.Next(Match.Next(Match.Opened(p1, p2, None, None), Match.Submission(p1, ROCK)),
                                      Match.Submission(p2, SCISSORS)), Match.Submission(p1, ROCK));
      && r3.status == Match.InProgress
      && Match.Next(r3, Match.Submission(p2, SCISSORS)).status == Match.Completed
  {
    var r1 := Match.Next(Match.Opened(p1, p2, None, None), Match.Submission(p1, ROCK));
    assert r1 == Match.Opened(p1, p2, Some(RpsEngine.Rock), None);
    var r2 := Match.Next(r1, Match.Submission(p2, SCISSORS));
    assert r2.wins1 == 1 && r2.status == Match.InProgress && r2.move1 == r2.move2 == None && r2.p1 == p1 && r2.p2 == p2;
    var r3 := Match.Next(r2, Match.Submission(p1, ROCK));
    assert r3 == r2.(move1 := Some(RpsEngine.Rock));
  }

  lemma PlayRounds(sv: Service, a: PlayerState, b: PlayerState)
    requires a.userId != b.userId && sv.boards == map[0 := NewBoard(Pairing(a, b))] && sv.moves == map[]
    ensures
      var sv3 := LiveRooms.Step(LiveRooms.Step(LiveRooms.Step(sv, Play(0, Match.Submission(a.userId, ROCK))),
                                               Play(0, Match.Submission(b.userId, SCISSORS))),
                                Play(0, Match.Submission(a.userId, ROCK)));
      && 0 in sv3.boards && sv3.boards[0].status == Match.InProgress
      && 0 in LiveRooms.Step(sv3, Play(0, Match.Submission(b.userId, SCISSORS))).finalizing
  {
    hide Match.Next, LiveRooms.Step;
    var rock, scissors := Match.Submission(a.userId, ROCK), Match.Submission(b.userId, SCISSORS);
    TwoRoundsComplete(a.userId, b.userId);
    assert LiveRooms.View(sv, 0) == Match.Opened(a.userId, b.userId, None, None);
    PlayIsNext(sv, 0, rock);
    var sv1 := LiveRooms.Step(sv, Play(0, rock));
    PlayIsNext(sv1, 0, scissors);
    var sv2 := LiveRooms.Step(sv1, Play(0, scissors));
    PlayIsNext(sv2, 0, rock);
    CompletionFinalizes(LiveRooms.Step(sv2, Play(0, rock)), 0, scissors);
  }

  lemma CompletionFinalizes(sv: Service, room: RoomId, s: Match.Submission)
    requires room in sv.boards && sv.boards[room].status == Match.InProgress
    requires Match.Next(LiveRooms.View(sv, room), s).status == Match.Completed
    ensures room in LiveRooms.Step(sv, Play(room, s)).finalizing
  {
    hide Match.Next;
  }

  lemma {:induction false} RunOfLast(a: State, deeds: seq<Deed>, last: Deed)
    ensures Arena.Run(a, deeds + [last]) == Arena.Step(Arena.Run(a, deeds), last)
    decreases |deeds|
  {
    if deeds == [] {
      assert [] + [last] == [last] + [];
      Forfeits.RunConsOfDeeds(a, last, []);
    } else {
      assert deeds + [last] == [deeds[0]] + (deeds[1..] + [last]);
      Forfeits.RunConsOfDeeds(a, deeds[0], deeds[1..] + [last]);
      RunOfLast(Arena.Step(a, deeds[0]), deeds[1..], last);
    }
  }

  lemma {:induction false} OnlyLastEnds(a: State, deeds: seq<Deed>, last: Deed, squad: SquadId)
    requires forall i :: 0 <= i < |deeds| ==> !deeds[i].Finish?
    ensures MatchesEnded(a, deeds + [last], squad) == if EndsMatch(Arena.Run(a, deeds), last, squad) then 1 else 0
    decreases |deeds|
  {
    hide Arena.Step;
    var all := deeds + [last];
    if deeds == [] {
      assert all[0] == last && all[1..] == [];
    } else {
      assert all[0] == deeds[0] && all[1..] == deeds[1..] + [last];
      OnlyLastEnds(Arena.Step(a, deeds[0]), deeds[1..], last, squad);
    }
  }

  lemma {:induction false} CalmWithoutAsking(a: State, deeds: seq<Deed>)
    requires forall i :: 0 <= i < |deeds| ==> !deeds[i].Ask?
    ensures AllCalm(a, deeds)
    decreases |deeds|
  {
    if deeds != [] { CalmWithoutAsking(Arena.Step(a, deeds[0]), deeds[1..]); }
  }

  lemma OneRoom(a: PlayerState, b: PlayerState)
    ensures
      var sv := LiveRooms.Step(NO_ROOMS, Open(Pairing(a, b)));
      sv.boards == map[0 := NewBoard(Pairing(a, b))] && sv.moves == map[]
  {
  }

  lemma TwoJoin(squad: SquadId, a: PlayerState, b: PlayerState)
    ensures JoinsOf(TwoRounds(squad, a, b) + [Finish(0)], squad) == 2
  {
    var deeds := TwoRounds(squad, a, b) + [Finish(0)];
    NoMoreJoins(deeds[2..], squad);
    assert deeds[1..][1..] == deeds[2..];
  }

  lemma {:induction false} NoMoreJoins(deeds: seq<Deed>, squad: SquadId)
    requires forall i :: 0 <= i < |deeds| ==> !deeds[i].Ask?
    ensures JoinsOf(deeds, squad) == 0
  {
    if deeds != [] { NoMoreJoins(deeds[1..], squad); }
  }

  lemma ConsistentAfterFive(squad: SquadId, a: PlayerState, b: PlayerState, s2: State, s5: State)
    requires s2 == Arena.Step(Arena.Step(NOTHING_YET, TwoRounds(squad, a, b)[0]), TwoRounds(squad, a, b)[1])
    requires s5 == Arena.Step(Arena.Step(Arena.Step(s2, TwoRounds(squad, a, b)[2]), TwoRounds(squad, a, b)[3]),
                              TwoRounds(squad, a, b)[4])
    ensures Consistent(s5)
  {
    hide Arena.Step, Consistent;
    var deeds := TwoRounds(squad, a, b);
    ReachableArenas([]);
    Forfeits.NoDeeds(NOTHING_YET);
    StepKeepsConsistent(NOTHING_YET, deeds[0]);
    StepKeepsConsistent(Arena.Step(NOTHING_YET, deeds[0]), deeds[1]);
    StepKeepsConsistent(s2, deeds[2]);
    StepKeepsConsistent(Arena.Step(s2, deeds[2]), deeds[3]);
    StepKeepsConsistent(Arena.Step(Arena.Step(s2, deeds[2]), deeds[3]), deeds[4]);
  }

  lemma TwoRoundsAreCalm(squad: SquadId, a: PlayerState, b: PlayerState)
    requires a.userId != b.userId
    ensures AllCalm(NOTHING_YET, TwoRounds(squad, a, b) + [Finish(0)])
  {
    hide Arena.Step;
    var deeds := TwoRounds(squad, a, b) + [Finish(0)];
    var s1 := Arena.Step(NOTHING_YET, deeds[0]);
    StrandedEntries.FirstJoins(NOTHING, squad, a, "a");
    Forfeits.AskIs(NOTHING_YET, deeds[0].request);
    assert deeds[1..][1..] == deeds[2..];
    CalmWithoutAsking(Arena.Step(s1, deeds[1]), deeds[2..]);
  }

  /** The calm run of a squad of two whose second match is stalled: one match on two joins. */
  lemma SquadOfTwoStalls(squad: SquadId, a: PlayerState, b: PlayerState)
    requires a.userId != b.userId && (a.walletVerified || b.walletVerified)
    ensures
      var deeds := TwoRounds(squad, a, b) + [Finish(0)];
      && AllCalm(NOTHING_YET, deeds) && Stalled(Arena.Run(NOTHING_YET, deeds), squad, 1)
      && MatchesEnded(NOTHING_YET, deeds, squad) == 1 && JoinsOf(deeds, squad) == 2
  {
    hide Arena.Step, Arena.Run, LiveRooms.Step, Consistent, Blocked, AllCalm, MatchesEnded;
    var deeds := TwoRounds(squad, a, b);
    var s2 := Forfeits.TwoAsk(squad, a, b, a);
    var s3 := Arena.Step(s2, deeds[2]);
    var s4 := Arena.Step(s3, deeds[3]);
    var s5 := Arena.Step(s4, deeds[4]);
    var s6 := Arena.Step(s5, deeds[5]);
    Forfeits.SubmitIs(s2, 0, deeds[2].submission);
    Forfeits.SubmitIs(s3, 0, deeds[3].submission);
    Forfeits.SubmitIs(s4, 0, deeds[4].submission);
    Forfeits.SubmitIs(s5, 0, deeds[5].submission);
    OneRoom(a, b);
    PlayRounds(s2.service, a, b);
    Forfeits.RunOfSixDeeds(NOTHING_YET, deeds);
    ConsistentAfterFive(squad, a, b, s2, s5);
    Forfeits.SquadOfTwoIsBlocked(s5, squad, 0, deeds[5].submission);
    RunOfLast(NOTHING_YET, deeds, Finish(0));
    OnlyLastEnds(NOTHING_YET, deeds, Finish(0), squad);
    StepKeepsConsistent(s5, deeds[5]);
    Forfeits.FinalizingIsCompleted(s6, 0);
    TwoRoundsAreCalm(squad, a, b);
    TwoJoin(squad, a, b);
  }
}
