/** What `finalizeMatch` does to the user rows: wins, losses, streaks, points and badges. */
module Ledger {
  import opened Wrappers
  import opened Players
  import opened Criteria

  datatype User = User(
    wins: nat, losses: nat, totalMatches: nat, points: nat, currentStreak: nat, longestStreak: nat, badges: set<string>)

  const NEWCOMER := User(0, 0, 0, 0, 0, 0, {})

  datatype Achievement = Achievement(id: string, criteria: string)

  /** A completed room as finalization reads it. */
  datatype Finished = Finished(
    player1: UserId, player2: UserId, verified1: bool, verified2: bool, winnerId: Option<UserId>)

  datatype Result = Won | Lost | Drew

  /** The two players are different users, and the winner, if there is one, is one of them. */
  predicate Proper(m: Finished) {
    m.player1 != m.player2 && (m.winnerId.Some? ==> m.winnerId.value in {m.player1, m.player2})
  }

  predicate Verified(m: Finished, id: UserId) {
    (id == m.player1 && m.verified1) || (id == m.player2 && m.verified2)
  }

  /** What the match counts as for a user: nothing unless he took part with a verified wallet. */
  function ResultFor(m: Finished, id: UserId): Option<Result> {
    if !Verified(m, id) then None
    else if m.winnerId.None? then Some(Drew)
    else if m.winnerId.value == id then Some(Won)
    else Some(Lost)
  }

  /** The columns a criterion can name. */
  function Fields(u: User): map<string, int> {
    map["wins" := u.wins, "losses" := u.losses, "totalMatches" := u.totalMatches, "points" := u.points,
        "currentStreak" := u.currentStreak, "longestStreak" := u.longestStreak]
  }

  function Scored(u: User, r: Result): User {
    match r
    case Won =>
      u.(wins := u.wins + 1, totalMatches := u.totalMatches + 1, points := u.points + 10,
         currentStreak := u.currentStreak + 1,
         longestStreak := if u.currentStreak + 1 > u.longestStreak then u.currentStreak + 1 else u.longestStreak)
    case Lost => u.(losses := u.losses + 1, totalMatches := u.totalMatches + 1, currentStreak := 0)
    case Drew => u.(totalMatches := u.totalMatches + 1)
  }

  predicate Qualifies(u: User, a: Achievement) {
    a.id !in u.badges && Evaluate(a.criteria, Fields(u))
  }

  /** The achievements the user meets now and does not have yet. */
  function NewBadges(u: User, table: seq<Achievement>): set<string> {
    if table == [] then {}
    else
      var a := table[|table| - 1];
      NewBadges(u, table[..|table| - 1]) + (if Qualifies(u, a) then {a.id} else {})
  }

  function WithBadges(u: User, badges: set<string>): User {
    u.(badges := u.badges + badges)
  }

  lemma MoreBadges(u: User, first: set<string>, more: set<string>)
    ensures WithBadges(WithBadges(u, first), more) == WithBadges(u, first + more)
    ensures WithBadges(u, {}) == u
  {
    assert u.badges + first + more == u.badges + (first + more);
  }

  lemma OverwriteTwice(users: map<UserId, User>, id: UserId, first: User, second: User)
    ensures users[id := first][id := second] == users[id := second]
  {
  }

  function Awarded(u: User, table: seq<Achievement>): User {
    var earned := NewBadges(u, table);
    WithBadges(u, earned).(points := u.points + 20 * |earned|)
  }

  /** The row after a match that counts for its user. */
  function Credited(u: User, r: Result, table: seq<Achievement>): User {
    Awarded(Scored(u, r), table)
  }

  function Finalized(users: map<UserId, User>, m: Finished, table: seq<Achievement>): map<UserId, User> {
    map id | id in users ::
      if ResultFor(m, id).Some? then Credited(users[id], ResultFor(m, id).value, table) else users[id]
  }

  ghost predicate DistinctIds(table: seq<Achievement>) {
    forall i, j :: 0 <= i < j < |table| ==> table[i].id != table[j].id
  }

  lemma {:induction false} NewBadgesAre(u: User, table: seq<Achievement>, id: string)
    ensures id in NewBadges(u, table) <==> exists i :: 0 <= i < |table| && table[i].id == id && Qualifies(u, table[i])
  {
    hide Qualifies;
    if table != [] {
      var init := table[..|table| - 1];
      NewBadgesAre(u, init, id);
      assert forall i :: 0 <= i < |init| ==> init[i] == table[i];
    }
  }

  lemma NoBadges(u: User)
    ensures NewBadges(u, []) == {}
  {
  }

  lemma NextBadge(u: User, table: seq<Achievement>, i: nat)
    requires DistinctIds(table) && i < |table|
    ensures table[i].id !in NewBadges(u, table[..i])
    ensures NewBadges(u, table[..i + 1]) == NewBadges(u, table[..i])
      + (if Qualifies(u, table[i]) then {table[i].id} else {})
  {
    NewBadgesAre(u, table[..i], table[i].id);
    assert table[..i + 1][..i] == table[..i];
  }

  /** Scores first, then badges and bonus of each verified player, is the finalization of every row. */
  lemma ScoresThenAwards(users: map<UserId, User>, scored: map<UserId, User>, final: map<UserId, User>,
                         m: Finished, table: seq<Achievement>)
    requires scored.Keys == users.Keys == final.Keys
    requires forall id :: id in users ==>
      scored[id] == if ResultFor(m, id).Some? then Scored(users[id], ResultFor(m, id).value) else users[id]
    requires forall id :: id in users ==>
      final[id] == if Verified(m, id) then Awarded(scored[id], table) else scored[id]
    ensures final == Finalized(users, m, table)
  {
    forall id | id in users ensures final[id] == Finalized(users, m, table)[id] {
    }
  }

  /** A practice match, with no verified player, counts for nobody. */
  lemma PracticeCountsForNobody(users: map<UserId, User>, m: Finished, table: seq<Achievement>)
    requires !m.verified1 && !m.verified2
    ensures Finalized(users, m, table) == users
  {
  }

  /** Badges first, then the bonus for their number. */
  lemma BadgesThenBonus(u: User, table: seq<Achievement>)
    ensures
      var earned := NewBadges(u, table);
      WithBadges(u, earned).(points := WithBadges(u, earned).points + 20 * |earned|) == Awarded(u, table)
  {
  }

  /** The user and achievement tables, changed one statement at a time. */
  class Database {
    var users: map<UserId, User>
    const achievements: seq<Achievement>

    constructor (users: map<UserId, User>, achievements: seq<Achievement>)
      ensures this.users == users && this.achievements == achievements
    {
      this.users, this.achievements := users, achievements;
    }

    method InsertBadge(userId: UserId, badge: string)
      requires userId in users
      modifies this`users
      ensures users == old(users)[userId := WithBadges(old(users)[userId], {badge})]
    {
      users := users[userId := WithBadges(users[userId], {badge})];
    }

    /** The award loop: inserts the badges the row qualifies for and returns their number. */
    method InsertBadges(userId: UserId, user: User) returns (badges: nat)
      requires DistinctIds(achievements) && userId in users && users[userId] == user
      modifies this`users
      ensures badges == |NewBadges(user, achievements)|
      ensures users == old(users)[userId := WithBadges(user, NewBadges(user, achievements))]
    {
      hide Qualifies, NewBadges, WithBadges;
      ghost var before, newlyEarned: set<string> := users, {};
      badges := 0;
      MoreBadges(user, {}, {});
      NoBadges(user);
      for i := 0 to |achievements|
        invariant newlyEarned == NewBadges(user, achievements[..i]) && badges == |newlyEarned|
        invariant users == before[userId := WithBadges(user, newlyEarned)]
      {
        NextBadge(user, achievements, i);
        if Qualifies(user, achievements[i]) {
          InsertBadge(userId, achievements[i].id);
          OverwriteTwice(before, userId, WithBadges(user, newlyEarned), users[userId]);
          MoreBadges(user, newlyEarned, {achievements[i].id});
          newlyEarned := newlyEarned + {achievements[i].id};
          badges := badges + 1;
        }
      }
      assert achievements[..|achievements|] == achievements;
    }

    /** The row that criteria are evaluated on is read once, before the loop. */
    method CheckAndAward(userId: UserId) returns (badges: nat)
      requires DistinctIds(achievements)
      modifies this`users
      ensures userId !in old(users) ==> badges == 0 && users == old(users)
      ensures userId in old(users) ==>
        && badges == |NewBadges(old(users)[userId], achievements)|
        && users == old(users)[userId := WithBadges(old(users)[userId], NewBadges(old(users)[userId], achievements))]
    {
      if userId !in users { return 0; }
      badges := InsertBadges(userId, users[userId]);
    }

    method RecordWin(id: UserId)
      requires id in users
      modifies this`users
      ensures users == old(users)[id := Scored(old(users)[id], Won)]
    {
      var u := users[id];
      users := users[id := u.(wins := u.wins + 1, totalMatches := u.totalMatches + 1, points := u.points + 10,
                              currentStreak := u.currentStreak + 1)];
      var winner := users[id];
      if winner.currentStreak > winner.longestStreak {
        users := users[id := winner.(longestStreak := winner.currentStreak)];
      }
    }

    method RecordLoss(id: UserId)
      requires id in users
      modifies this`users
      ensures users == old(users)[id := Scored(old(users)[id], Lost)]
    {
      var u := users[id];
      users := users[id := u.(losses := u.losses + 1, totalMatches := u.totalMatches + 1, currentStreak := 0)];
    }

    method RecordDraw(id: UserId)
      requires id in users
      modifies this`users
      ensures users == old(users)[id := Scored(old(users)[id], Drew)]
    {
      users := users[id := users[id].(totalMatches := users[id].totalMatches + 1)];
    }

    /** First the scores of winner and loser, or of both on a draw. */
    method RecordScores(m: Finished)
      requires Proper(m) && (m.verified1 ==> m.player1 in users) && (m.verified2 ==> m.player2 in users)
      modifies this`users
      ensures users == map id | id in old(users) ::
                         if ResultFor(m, id).Some? then Scored(old(users)[id], ResultFor(m, id).value)
                         else old(users)[id]
    {
      if m.winnerId.Some? {
        var winnerId := m.winnerId.value;
        var loserId := if winnerId == m.player1 then m.player2 else m.player1;
        if (winnerId == m.player1 && m.verified1) || (winnerId == m.player2 && m.verified2) { RecordWin(winnerId); }
        if (loserId == m.player1 && m.verified1) || (loserId == m.player2 && m.verified2) { RecordLoss(loserId); }
      } else {
        if m.verified1 { RecordDraw(m.player1); }
        if m.verified2 { RecordDraw(m.player2); }
      }
    }

    method AddBonus(id: UserId, badges: nat)
      requires id in users
      modifies this`users
      ensures users == old(users)[id := old(users)[id].(points := old(users)[id].points + 20 * badges)]
    {
      if badges > 0 {
        users := users[id := users[id].(points := users[id].points + 20 * badges)];
      }
    }

    /** Finalization of one match, as one step.  A verified player has a user row: the flag was read from it, and
        rows are only soft-deleted. */
    method FinalizeMatch(m: Finished)
      requires Proper(m) && DistinctIds(achievements)
      requires (m.verified1 ==> m.player1 in users) && (m.verified2 ==> m.player2 in users)
      modifies this`users
      ensures users == Finalized(old(users), m, achievements)
    {
      hide Qualifies, NewBadges, Scored, WithBadges, Awarded, Finalized, ResultFor;
      if !m.verified1 && !m.verified2 {
        PracticeCountsForNobody(users, m, achievements);
        return;
      }
      RecordScores(m);
      ghost var scored := users;
      if m.verified1 { BadgesThenBonus(scored[m.player1], achievements); }
      if m.verified2 { BadgesThenBonus(scored[m.player2], achievements); }
      var badges1, badges2 := 0, 0;
      if m.verified1 { badges1 := CheckAndAward(m.player1); }
      if m.verified2 { badges2 := CheckAndAward(m.player2); }
      if m.verified1 { AddBonus(m.player1, badges1); }
      if m.verified2 { AddBonus(m.player2, badges2); }
      ScoresThenAwards(old(users), scored, users, m, achievements);
    }
  }
}
