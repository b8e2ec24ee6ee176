/** The incrementally updated rows are declarative functions of each user's match history. */
module LedgerHistory {
  import opened Wrappers
  import opened Players
  import opened Criteria
  import opened Ledger
  import Leaderboard
  import Match
  import opened RpsEngine

  /** The results a user collected as a verified player, oldest first. */
  function History(matches: seq<Finished>, id: UserId): seq<Result> {
    if matches == [] then []
    else
      var r := ResultFor(matches[|matches| - 1], id);
      History(matches[..|matches| - 1], id) + (if r.Some? then [r.value] else [])
  }

  function Replay(users: map<UserId, User>, matches: seq<Finished>, table: seq<Achievement>): map<UserId, User> {
    if matches == [] then users
    else Finalized(Replay(users, matches[..|matches| - 1], table), matches[|matches| - 1], table)
  }

  function RowAfter(history: seq<Result>, table: seq<Achievement>): User {
    if history == [] then NEWCOMER
    else Credited(RowAfter(history[..|history| - 1], table), history[|history| - 1], table)
  }

  /** A row depends on its user's own history only. */
  lemma {:induction false} ReplayIsRowAfter(users: map<UserId, User>, matches: seq<Finished>, table: seq<Achievement>,
                                            id: UserId)
    requires id in users && users[id] == NEWCOMER
    ensures Replay(users, matches, table).Keys == users.Keys
    ensures Replay(users, matches, table)[id] == RowAfter(History(matches, id), table)
  {
    hide Credited;
    if matches != [] {
      var init := matches[..|matches| - 1];
      ReplayIsRowAfter(users, init, table, id);
      var r := ResultFor(matches[|matches| - 1], id);
      if r.Some? {
        assert (History(init, id) + [r.value])[..|History(init, id)|] == History(init, id);
      } else {
        assert History(init, id) + [] == History(init, id);
      }
    }
  }

  /** A room that was completed by play hands finalization two different players and a winner among them, so the draw
      branch stays unused. */
  lemma PlayedMatchIsDecisive(p1: UserId, p2: UserId, move1: Option<Move>, move2: Option<Move>,
                              subs: seq<Match.Submission>, verified1: bool, verified2: bool)
    requires p1 != p2 && (move1.None? || move2.None?)
    requires Match.Run(Match.Opened(p1, p2, move1, move2), subs).status == Match.Completed
    ensures Match.Run(Match.Opened(p1, p2, move1, move2), subs).winnerId in {Some(p1), Some(p2)}
    ensures
      var first := Match.Run(Match.Opened(p1, p2, move1, move2), subs).winnerId == Some(p1);
      var m := Finished(p1, p2, verified1, verified2, Some(if first then p1 else p2));
      Proper(m) && forall id :: ResultFor(m, id) != Some(Drew)
  {
    Match.EveryRoomIsWellPlayed(p1, p2, move1, move2, subs);
    Match.RunKeepsPlayers(Match.Opened(p1, p2, move1, move2), subs);
  }

  // ---------------------------------------------------------------------------------------------
  // Declarative statistics of a history
  // ---------------------------------------------------------------------------------------------

  function Count(history: seq<Result>, r: Result): nat {
    if history == [] then 0
    else Count(history[..|history| - 1], r) + (if history[|history| - 1] == r then 1 else 0)
  }

  /** A draw neither extends nor breaks a streak. */
  function Decisive(history: seq<Result>): seq<Result> {
    if history == [] then []
    else
      Decisive(history[..|history| - 1]) + (if history[|history| - 1] == Drew then [] else [history[|history| - 1]])
  }

  ghost predicate AllWon(history: seq<Result>, from: nat, to: nat)
    requires from <= to <= |history|
  {
    forall i :: from <= i < to ==> history[i] == Won
  }

  /** The last n results are wins, and the one before them, if any, is not. */
  ghost predicate TrailingRun(history: seq<Result>, n: nat) {
    && n <= |history|
    && AllWon(history, |history| - n, |history|)
    && (n < |history| ==> history[|history| - n - 1] != Won)
  }

  /** n is the greatest length of a contiguous all-win segment. */
  ghost predicate LongestRun(history: seq<Result>, n: nat) {
    && (exists i: nat, j: nat :: i <= j <= |history| && AllWon(history, i, j) && j - i == n)
    && (forall i: nat, j: nat :: i <= j <= |history| && AllWon(history, i, j) ==> j - i <= n)
  }

  /** Segments inside a prefix. */
  lemma WonInPrefix(history: seq<Result>, r: Result, i: nat, j: nat)
    requires i <= j <= |history|
    ensures AllWon(history + [r], i, j) <==> AllWon(history, i, j)
  {
    assert forall k :: 0 <= k < |history| ==> (history + [r])[k] == history[k];
  }

  /** One more win extends the trailing run, and the longest run if the trailing one outgrows it. */
  lemma RunsAfterWin(history: seq<Result>, current: nat, longest: nat)
    requires TrailingRun(history, current) && LongestRun(history, longest)
    ensures TrailingRun(history + [Won], current + 1)
    ensures LongestRun(history + [Won], if current + 1 > longest then current + 1 else longest)
  {
    var longer, n := history + [Won], |history|;
    var best := if current + 1 > longest then current + 1 else longest;
    WonInPrefix(history, Won, n - current, n);
    assert AllWon(longer, n - current, n + 1);
    if current + 1 <= longest {
      var i: nat, j: nat :| i <= j <= n && AllWon(history, i, j) && j - i == longest;
      WonInPrefix(history, Won, i, j);
      assert AllWon(longer, i, j);
    }
    assert current < n ==> longer[n - current - 1] == history[n - current - 1];
    forall i: nat, j: nat | i <= j <= n + 1 && AllWon(longer, i, j) ensures j - i <= best {
      if j <= n {
        WonInPrefix(history, Won, i, j);
      }
    }
  }

  lemma RunsAfterLoss(history: seq<Result>, longest: nat)
    requires LongestRun(history, longest)
    ensures TrailingRun(history + [Lost], 0) && LongestRun(history + [Lost], longest)
  {
    var longer, n := history + [Lost], |history|;
    var i: nat, j: nat :| i <= j <= n && AllWon(history, i, j) && j - i == longest;
    WonInPrefix(history, Lost, i, j);
    assert AllWon(longer, i, j);
    assert longer[n] == Lost;
    forall i: nat, j: nat | i <= j <= n + 1 && AllWon(longer, i, j) ensures j - i <= longest {
      if j <= n {
        WonInPrefix(history, Lost, i, j);
      }
    }
  }

  /** The counters and streaks of a row, whatever the achievements. */
  ghost predicate Tallies(u: User, history: seq<Result>) {
    && u.wins == Count(history, Won) && u.losses == Count(history, Lost)
    && u.totalMatches == |history| == u.wins + u.losses + Count(history, Drew)
    && TrailingRun(Decisive(history), u.currentStreak)
    && LongestRun(Decisive(history), u.longestStreak)
  }

  lemma ScoredTallies(u: User, init: seq<Result>, r: Result)
    requires Tallies(u, init)
    ensures Tallies(Scored(u, r), init + [r])
  {
    var history := init + [r];
    assert history[..|history| - 1] == init;
    match r
    case Won => RunsAfterWin(Decisive(init), u.currentStreak, u.longestStreak);
    case Lost => RunsAfterLoss(Decisive(init), u.longestStreak);
    case Drew => assert Decisive(init) + [] == Decisive(init);
  }

  /** Streak refinement: after any history the incremental streak fields are the trailing and the longest run. */
  lemma {:induction false} RowTallies(history: seq<Result>, table: seq<Achievement>)
    ensures Tallies(RowAfter(history, table), history)
  {
    hide Qualifies, NewBadges;
    if history == [] {
      assert AllWon([], 0, 0);
    } else {
      var init, r := history[..|history| - 1], history[|history| - 1];
      RowTallies(init, table);
      ScoredTallies(RowAfter(init, table), init, r);
      assert history == init + [r];
    }
  }

  // ---------------------------------------------------------------------------------------------
  // Badges and points
  // ---------------------------------------------------------------------------------------------

  function StreakCriterion(threshold: nat): string {
    Print(Criterion("currentStreak", Ge, threshold), " ", " ")
  }

  /** A table of badges for win streaks, each with its positive threshold. */
  ghost predicate StreakTable(table: seq<Achievement>, thresholds: map<string, nat>) {
    && DistinctIds(table)
    && (forall i :: 0 <= i < |table| ==> table[i].id in thresholds)
    && (forall i :: 0 <= i < |table| ==> table[i].criteria == StreakCriterion(thresholds[table[i].id]))
    && (forall id :: id in thresholds ==> thresholds[id] > 0 && exists i :: 0 <= i < |table| && table[i].id == id)
  }

  function Reached(thresholds: map<string, nat>, streak: nat): set<string> {
    set id | id in thresholds && thresholds[id] <= streak
  }

  lemma StreakQualifies(u: User, a: Achievement, threshold: nat)
    requires a.criteria == StreakCriterion(threshold)
    ensures Qualifies(u, a) <==> a.id !in u.badges && threshold <= u.currentStreak
  {
    var field := "currentStreak";
    assert All(IsWord, field);
    EvaluateOfPrint(Criterion(field, Ge, threshold), " ", " ", Fields(u));
  }

  lemma StreakBadges(u: User, table: seq<Achievement>, thresholds: map<string, nat>)
    requires StreakTable(table, thresholds)
    ensures NewBadges(u, table) == Reached(thresholds, u.currentStreak) - u.badges
  {
    hide Qualifies, NewBadges;
    forall id
      ensures id in NewBadges(u, table) <==> id in Reached(thresholds, u.currentStreak) && id !in u.badges
    {
      NewBadgesAre(u, table, id);
      forall i | 0 <= i < |table| && table[i].id == id
        ensures Qualifies(u, table[i]) <==> id !in u.badges && thresholds[id] <= u.currentStreak
      {
        StreakQualifies(u, table[i], thresholds[id]);
      }
    }
  }

  lemma PointsAfter(before: set<string>, earned: set<string>)
    requires before !! earned
    ensures |before + earned| == |before| + |earned|
  {
  }

  lemma ReachedTogether(thresholds: map<string, nat>, m: nat, n: nat)
    ensures Reached(thresholds, m) + (Reached(thresholds, n) - Reached(thresholds, m))
         == Reached(thresholds, if m > n then m else n)
  {
  }

  lemma CreditedBadges(u: User, r: Result, table: seq<Achievement>, thresholds: map<string, nat>)
    requires StreakTable(table, thresholds)
    requires u.currentStreak <= u.longestStreak && u.badges == Reached(thresholds, u.longestStreak)
    requires u.points == 10 * u.wins + 20 * |u.badges|
    ensures
      var v := Credited(u, r, table);
      && v.currentStreak <= v.longestStreak && v.badges == Reached(thresholds, v.longestStreak)
      && v.points == 10 * v.wins + 20 * |v.badges|
  {
    hide Qualifies, NewBadges, Reached, StreakTable;
    var scored := Scored(u, r);
    StreakBadges(scored, table, thresholds);
    ReachedTogether(thresholds, u.longestStreak, scored.currentStreak);
    PointsAfter(scored.badges, NewBadges(scored, table));
  }

  /** Badge ledger: with streak criteria a user's badges are exactly the thresholds his longest streak has reached,
      and every point is accounted for by a win or a badge. */
  lemma {:induction false} RowBadges(history: seq<Result>, table: seq<Achievement>, thresholds: map<string, nat>)
    requires StreakTable(table, thresholds)
    ensures
      var u := RowAfter(history, table);
      && u.currentStreak <= u.longestStreak && u.badges == Reached(thresholds, u.longestStreak)
      && u.points == 10 * u.wins + 20 * |u.badges|
  {
    hide Credited;
    if history == [] {
      assert Reached(thresholds, 0) == {};
    } else {
      var init := history[..|history| - 1];
      RowBadges(init, table, thresholds);
      CreditedBadges(RowAfter(init, table), history[|history| - 1], table, thresholds);
    }
  }

  const SEED := [
    Achievement("Water Badge", "currentStreak >= 3"),
    Achievement("Fire Badge", "currentStreak >= 5"),
    Achievement("Gold Badge", "currentStreak >= 7"),
    Achievement("Diamond Badge", "currentStreak >= 10"),
    Achievement("Platinum Badge", "currentStreak >= 15")]

  const SEED_THRESHOLDS := map[
    "Water Badge" := 3, "Fire Badge" := 5, "Gold Badge" := 7, "Diamond Badge" := 10, "Platinum Badge" := 15]

  lemma SeedCriteria()
    ensures SEED[0].criteria == StreakCriterion(3)
    ensures SEED[1].criteria == StreakCriterion(5)
    ensures SEED[2].criteria == StreakCriterion(7)
    ensures SEED[3].criteria == StreakCriterion(10)
    ensures SEED[4].criteria == StreakCriterion(15)
  {
    assert Digits(1) == "1" && Digits(10) == "10" && Digits(15) == "15";
  }

  lemma SeedIsStreakTable()
    ensures StreakTable(SEED, SEED_THRESHOLDS)
  {
    hide StreakCriterion;
    SeedCriteria();
    assert SEED[0].id[0] == 'W' && SEED[1].id[0] == 'F' && SEED[2].id[0] == 'G' && SEED[3].id[0] == 'D' &&
      SEED[4].id[0] == 'P';
    assert SEED_THRESHOLDS.Keys == {SEED[0].id, SEED[1].id, SEED[2].id, SEED[3].id, SEED[4].id};
  }

  lemma {:induction false} NoDraws(matches: seq<Finished>, id: UserId)
    requires forall i :: 0 <= i < |matches| ==> matches[i].winnerId.Some?
    ensures Count(History(matches, id), Drew) == 0
  {
    if matches != [] {
      var init, r := matches[..|matches| - 1], ResultFor(matches[|matches| - 1], id);
      NoDraws(init, id);
      assert matches[|matches| - 1].winnerId.Some?;
      if r.Some? {
        assert (History(init, id) + [r.value])[..|History(init, id)|] == History(init, id);
      } else {
        assert History(init, id) + [] == History(init, id);
      }
    }
  }

  /** The ledger over any run of finalized matches, with the seeded badges: everything in a row follows from the
      history of its user. */
  lemma LedgerOfRun(users: map<UserId, User>, matches: seq<Finished>, id: UserId)
    requires id in users && users[id] == NEWCOMER
    ensures id in Replay(users, matches, SEED)
    ensures
      var u, history := Replay(users, matches, SEED)[id], History(matches, id);
      && Tallies(u, history)
      && u.badges == Reached(SEED_THRESHOLDS, u.longestStreak)
      && u.points == 10 * u.wins + 20 * |u.badges|
      && (u.points > 0 ==> u.totalMatches > 0)
      && ((forall i :: 0 <= i < |matches| ==> matches[i].winnerId.Some?) ==> u.totalMatches == u.wins + u.losses)
  {
    hide Credited, RowAfter;
    if forall i :: 0 <= i < |matches| ==> matches[i].winnerId.Some? { NoDraws(matches, id); }
    ReplayIsRowAfter(users, matches, SEED, id);
    RowTallies(History(matches, id), SEED);
    SeedIsStreakTable();
    RowBadges(History(matches, id), SEED, SEED_THRESHOLDS);
    var u := Replay(users, matches, SEED)[id];
    if u.longestStreak == 0 {
      assert u.badges == {};
    } else {
      DecisiveIsShorter(History(matches, id));
    }
  }

  /** The board's columns of a ledger row. */
  predicate IsRowOf(r: Leaderboard.Row, users: map<UserId, User>) {
    r.id != "" && r.id in users && r.points == users[r.id].points && r.wins == users[r.id].wins
    && r.totalMatches == users[r.id].totalMatches
  }

  /** The two rank computations agree on every table that a run of finalized matches can leave. */
  lemma LedgerRanksAgree(users: map<UserId, User>, matches: seq<Finished>,
                         rows: seq<Leaderboard.Row>, board: seq<Leaderboard.Row>, id: string) returns (k: nat)
    requires forall id: UserId :: id in users ==> users[id] == NEWCOMER
    requires forall r :: r in rows ==> r.id != "" && r.id in users && IsRowOf(r, Replay(users, matches, SEED))
    requires Leaderboard.BoardOf(board, rows)
    requires Leaderboard.Find(rows, id).Some? && Leaderboard.OnBoard(Leaderboard.Find(rows, id).value)
    ensures k < |board| && board[k].points == Leaderboard.Find(rows, id).value.points
    ensures forall i :: 0 <= i < k ==> board[i].points != board[k].points
    ensures Leaderboard.RankOf(rows, id).rank == Leaderboard.Page(board, |board|, 0)[k].rank
  {
    k := Leaderboard.RanksAgreeIff(rows, board, id);
    forall r | r in rows && r.points > 0 ensures r.totalMatches > 0 {
      LedgerOfRun(users, matches, r.id);
    }
  }

  lemma {:induction false} DecisiveIsShorter(history: seq<Result>)
    ensures |Decisive(history)| <= |history|
  {
    if history != [] {
      DecisiveIsShorter(history[..|history| - 1]);
    }
  }

  // ---------------------------------------------------------------------------------------------
  // Totals over all users
  // ---------------------------------------------------------------------------------------------

  ghost predicate DistinctUsers(ids: seq<UserId>) {
    forall i, j :: 0 <= i < j < |ids| ==> ids[i] != ids[j]
  }

  /** Wins and losses summed over the listed users. */
  function Total(users: map<UserId, User>, ids: seq<UserId>): (nat, nat)
    requires forall i :: 0 <= i < |ids| ==> ids[i] in users
  {
    if ids == [] then (0, 0)
    else
      var rest, u := Total(users, ids[1..]), users[ids[0]];
      (rest.0 + u.wins, rest.1 + u.losses)
  }

  /** Whether a match had a verified winner, and whether a verified loser. */
  function VerifiedWinners(m: Finished): nat {
    if m.winnerId.Some? && Verified(m, m.winnerId.value) then 1 else 0
  }

  function VerifiedLosers(m: Finished): nat {
    if m.winnerId.Some? && Verified(m, if m.winnerId.value == m.player1 then m.player2 else m.player1) then 1 else 0
  }

  /** How many matches had a verified winner, and how many a verified loser. */
  function DecidedMatches(matches: seq<Finished>): (nat, nat) {
    if matches == [] then (0, 0)
    else
      var rest, m := DecidedMatches(matches[..|matches| - 1]), matches[|matches| - 1];
      (rest.0 + VerifiedWinners(m), rest.1 + VerifiedLosers(m))
  }

  /** How many of the listed users have the given result in the match. */
  function Having(m: Finished, ids: seq<UserId>, r: Result): nat {
    if ids == [] then 0 else (if ResultFor(m, ids[0]) == Some(r) then 1 else 0) + Having(m, ids[1..], r)
  }

  lemma CreditedCounts(u: User, r: Result, table: seq<Achievement>)
    ensures Credited(u, r, table).wins == u.wins + (if r == Won then 1 else 0)
    ensures Credited(u, r, table).losses == u.losses + (if r == Lost then 1 else 0)
  {
  }

  lemma {:induction false} TotalAfter(users: map<UserId, User>, ids: seq<UserId>, m: Finished, table: seq<Achievement>)
    requires forall i :: 0 <= i < |ids| ==> ids[i] in users
    ensures forall i :: 0 <= i < |ids| ==> ids[i] in Finalized(users, m, table)
    ensures Total(Finalized(users, m, table), ids).0 == Total(users, ids).0 + Having(m, ids, Won)
    ensures Total(Finalized(users, m, table), ids).1 == Total(users, ids).1 + Having(m, ids, Lost)
  {
    hide Credited;
    if ids != [] {
      TotalAfter(users, ids[1..], m, table);
      if ResultFor(m, ids[0]).Some? {
        CreditedCounts(users[ids[0]], ResultFor(m, ids[0]).value, table);
      }
    }
  }

  /** At most one listed user is `who`, and exactly one if he is listed. */
  lemma {:induction false} HavingOnly(m: Finished, ids: seq<UserId>, r: Result, who: UserId)
    requires DistinctUsers(ids)
    requires forall id: UserId :: id != who ==> ResultFor(m, id) != Some(r)
    ensures Having(m, ids, r) == if who in ids && ResultFor(m, who) == Some(r) then 1 else 0
  {
    if ids != [] {
      HavingOnly(m, ids[1..], r, who);
      assert forall i :: 1 <= i < |ids| ==> ids[i] == ids[1..][i - 1];
      assert who in ids <==> who == ids[0] || who in ids[1..];
      assert who == ids[0] ==> who !in ids[1..];
    }
  }

  /** Summed over all users, wins (losses) are the matches with a verified winner (loser). */
  lemma {:induction false} TotalsOfRun(users: map<UserId, User>, ids: seq<UserId>, matches: seq<Finished>,
                                       table: seq<Achievement>)
    requires DistinctUsers(ids) && (forall id :: id in users <==> id in ids)
    requires forall id :: id in users ==> users[id] == NEWCOMER
    requires forall i :: 0 <= i < |matches| ==> Proper(matches[i])
    requires forall i, id: UserId :: 0 <= i < |matches| && Verified(matches[i], id) ==> id in users
    ensures Replay(users, matches, table).Keys == users.Keys
    ensures Total(Replay(users, matches, table), ids) == DecidedMatches(matches)
  {
    hide Finalized;
    if matches == [] {
      NobodyHasWon(users, ids);
    } else {
      var init, m := matches[..|matches| - 1], matches[|matches| - 1];
      TotalsOfRun(users, ids, init, table);
      var before := Replay(users, init, table);
      FinalizedKeys(before, m, table);
      TotalAfter(before, ids, m, table);
      assert Proper(m);
      if m.winnerId.Some? {
        var winner := m.winnerId.value;
        var loser := if winner == m.player1 then m.player2 else m.player1;
        HavingOnly(m, ids, Won, winner);
        HavingOnly(m, ids, Lost, loser);
      } else {
        HavingOnly(m, ids, Won, m.player1);
        HavingOnly(m, ids, Lost, m.player1);
      }
    }
  }

  lemma FinalizedKeys(users: map<UserId, User>, m: Finished, table: seq<Achievement>)
    ensures Finalized(users, m, table).Keys == users.Keys
  {
  }

  lemma {:induction false} NobodyHasWon(users: map<UserId, User>, ids: seq<UserId>)
    requires forall i :: 0 <= i < |ids| ==> ids[i] in users && users[ids[i]] == NEWCOMER
    ensures Total(users, ids) == (0, 0)
  {
    if ids != [] {
      NobodyHasWon(users, ids[1..]);
    }
  }
}
