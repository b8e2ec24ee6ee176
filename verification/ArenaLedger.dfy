/** The ledger of everything that was played: the rooms of a run of the game service, finalized in their order. */
module ArenaLedger {
  import opened Wrappers
  import opened Players
  import opened LedgerHistory
  import LiveRooms
  import Ledger
  import Match

  function Winner(b: LiveRooms.Board): Option<UserId> {
    if b.winnerId == Some(b.seats.player1.userId) then Some(b.seats.player1.userId)
    else if b.winnerId == Some(b.seats.player2.userId) then Some(b.seats.player2.userId)
    else None
  }

  /** What finalization reads of a room. */
  function MatchOf(b: LiveRooms.Board): Ledger.Finished {
    Ledger.Finished(b.seats.player1.userId, b.seats.player2.userId,
                    b.seats.player1.walletVerified, b.seats.player2.walletVerified, Winner(b))
  }

  function Matches(sv: LiveRooms.Service): seq<Ledger.Finished>
    requires forall id :: id in sv.finalizing ==> id in sv.boards
  {
    seq(|sv.finalizing|, i requires 0 <= i < |sv.finalizing| => MatchOf(sv.boards[sv.finalizing[i]]))
  }

  /** Every finalized match has two different players and one of them as the recorded winner. */
  lemma MatchesAreDecisive(sv: LiveRooms.Service, i: nat)
    requires LiveRooms.Sane(sv) && i < |sv.finalizing|
    ensures sv.finalizing[i] in sv.boards
    ensures
      var m := MatchOf(sv.boards[sv.finalizing[i]]);
      Ledger.Proper(m) && m.winnerId.Some? && m.winnerId == sv.boards[sv.finalizing[i]].winnerId
  {
    var id := sv.finalizing[i];
    assert id in sv.finalizing;
    assert Match.WellScored(LiveRooms.View(sv, id));
  }

  /** What a finalized match counts for a user: nothing unless he sat in it with a verified wallet, and else a win
      exactly if the room names him as its winner. */
  lemma ResultIs(sv: LiveRooms.Service, i: nat, id: UserId)
    requires LiveRooms.Sane(sv) && i < |sv.finalizing| && sv.finalizing[i] in sv.boards
    ensures
      var b := sv.boards[sv.finalizing[i]];
      Ledger.ResultFor(MatchOf(b), id) ==
        if (b.seats.player1.userId == id && b.seats.player1.walletVerified)
           || (b.seats.player2.userId == id && b.seats.player2.walletVerified)
        then Some(if b.winnerId == Some(id) then Ledger.Won else Ledger.Lost) else None
  {
    MatchesAreDecisive(sv, i);
  }

  /** Whatever rooms were opened and whatever was submitted to them, also with shared players (every reachable
      service is sane): after finalization every row of the ledger follows from its user's matches, and each of these
      was won or lost. */
  lemma LedgerOfArena(sv: LiveRooms.Service, users: map<UserId, Ledger.User>, id: UserId)
    requires LiveRooms.Sane(sv) && id in users && users[id] == Ledger.NEWCOMER
    ensures id in Replay(users, Matches(sv), SEED)
    ensures
      var u, history := Replay(users, Matches(sv), SEED)[id], History(Matches(sv), id);
      && Tallies(u, history) && u.totalMatches == u.wins + u.losses
      && u.badges == Reached(SEED_THRESHOLDS, u.longestStreak)
      && u.points == 10 * u.wins + 20 * |u.badges|
  {
    hide Replay, History, Tallies;
    var matches := Matches(sv);
    forall i | 0 <= i < |matches| ensures matches[i].winnerId.Some? {
      MatchesAreDecisive(sv, i);
    }
    LedgerOfRun(users, matches, id);
  }

  predicate VerifiedAreUsers(m: Ledger.Finished, users: map<UserId, Ledger.User>) {
    (m.verified1 ==> m.player1 in users) && (m.verified2 ==> m.player2 in users)
  }

  /** And summed over all users, wins (losses) are the completed rooms whose winner (loser) was verified. */
  lemma TotalsOfArena(sv: LiveRooms.Service, users: map<UserId, Ledger.User>, ids: seq<UserId>)
    requires LiveRooms.Sane(sv) && DistinctUsers(ids) && (forall id :: id in users <==> id in ids)
    requires forall id :: id in users ==> users[id] == Ledger.NEWCOMER
    requires forall i :: 0 <= i < |Matches(sv)| ==> VerifiedAreUsers(Matches(sv)[i], users)
    ensures Replay(users, Matches(sv), SEED).Keys == users.Keys
    ensures Total(Replay(users, Matches(sv), SEED), ids) == DecidedMatches(Matches(sv))
  {
    var matches := Matches(sv);
    forall i | 0 <= i < |matches| ensures Ledger.Proper(matches[i]) {
      MatchesAreDecisive(sv, i);
    }
    forall i, id: UserId | 0 <= i < |matches| && Ledger.Verified(matches[i], id) ensures id in users {
      assert VerifiedAreUsers(matches[i], users);
    }
    TotalsOfRun(users, ids, matches, SEED);
  }
}
