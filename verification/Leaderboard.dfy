/** The two rank computations: the sorted, paged board and the count of better players. */
module Leaderboard {
  import opened Wrappers

  datatype Row = Row(id: string, verified: bool, deleted: bool, points: nat, wins: nat, totalMatches: nat)

  datatype Ranked = Ranked(rank: nat, row: Row)

  datatype PlayerRank = NoRank | PlayerRank(rank: nat, points: nat, totalRankedPlayers: nat)

  /** The filter of the board. */
  predicate OnBoard(r: Row) {
    r.verified && r.totalMatches > 0 && !r.deleted
  }

  /** The filter of the count: unlike the board it does not ask for a match. */
  predicate Counted(r: Row) {
    r.verified && !r.deleted
  }

  function Above(points: nat): Row -> bool {
    (r: Row) => r.points > points
  }

  function CountedAbove(points: nat): Row -> bool {
    (r: Row) => r.points > points && Counted(r)
  }

  function Select(rows: seq<Row>, p: Row -> bool): seq<Row> {
    if rows == [] then [] else (if p(rows[0]) then [rows[0]] else []) + Select(rows[1..], p)
  }

  predicate InOrder(a: Row, b: Row) {
    a.points > b.points || (a.points == b.points && a.wins >= b.wins)
  }

  /** Any answer the database may give to the sorted query: ties may come in any order. */
  ghost predicate BoardOf(board: seq<Row>, rows: seq<Row>) {
    && multiset(board) == multiset(Select(rows, OnBoard))
    && (forall i, j :: 0 <= i < j < |board| ==> InOrder(board[i], board[j]))
  }

  /** `getLeaderboard` on one answer of the query. */
  function Page(board: seq<Row>, limit: nat, offset: nat): seq<Ranked> {
    if offset >= |board| then []
    else
      var size := if offset + limit <= |board| then limit else |board| - offset;
      seq(size, i requires 0 <= i < size => Ranked(offset + i + 1, board[offset + i]))
  }

  function Find(rows: seq<Row>, id: string): Option<Row> {
    if rows == [] then None else if rows[0].id == id then Some(rows[0]) else Find(rows[1..], id)
  }

  /** `getPlayerRank`. */
  function RankOf(rows: seq<Row>, id: string): PlayerRank {
    var user := Find(rows, id);
    if user.None? || !user.value.verified then NoRank
    else
      PlayerRank(|Select(rows, CountedAbove(user.value.points))| + 1, user.value.points,
                 |Select(rows, Counted)|)
  }

  /** Counted players without a match who have more than the given points. */
  function IdleAbove(rows: seq<Row>, points: nat): seq<Row> {
    Select(rows, (r: Row) => r.points > points && Counted(r) && r.totalMatches == 0)
  }

  // ---------------------------------------------------------------------------------------------

  lemma {:induction false} CountsSplit(rows: seq<Row>, points: nat)
    ensures |Select(rows, CountedAbove(points))|
         == |Select(Select(rows, OnBoard), Above(points))| + |IdleAbove(rows, points)|
  {
    if rows != [] {
      CountsSplit(rows[1..], points);
      var rest := Select(rows[1..], OnBoard);
      if OnBoard(rows[0]) {
        assert Select(rows, OnBoard)[0] == rows[0] && Select(rows, OnBoard)[1..] == rest;
      } else {
        assert Select(rows, OnBoard) == rest;
      }
    }
  }

  lemma {:induction false} SelectOfConcat(a: seq<Row>, b: seq<Row>, p: Row -> bool)
    ensures Select(a + b, p) == Select(a, p) + Select(b, p)
  {
    if a == [] {
      assert a + b == b;
    } else {
      var head := if p(a[0]) then [a[0]] else [];
      assert (a + b)[0] == a[0] && (a + b)[1..] == a[1..] + b;
      SelectOfConcat(a[1..], b, p);
      assert head + (Select(a[1..], p) + Select(b, p)) == (head + Select(a[1..], p)) + Select(b, p);
    }
  }

  lemma WithoutOne(b: seq<Row>, k: nat)
    requires k < |b|
    ensures multiset(b[..k] + b[k + 1..]) == multiset(b) - multiset{b[k]}
  {
    assert b == b[..k] + [b[k]] + b[k + 1..];
  }

  /** Counting does not depend on the order of the rows. */
  lemma {:induction false} CountOfPermutation(a: seq<Row>, b: seq<Row>, p: Row -> bool)
    requires multiset(a) == multiset(b)
    ensures |Select(a, p)| == |Select(b, p)|
  {
    if a == [] {
      assert |multiset(b)| == 0;
    } else {
      assert a[0] in multiset(b);
      var k :| 0 <= k < |b| && b[k] == a[0];
      assert b == b[..k] + ([b[k]] + b[k + 1..]);
      assert a == [a[0]] + a[1..];
      WithoutOne(b, k);
      WithoutOne(a, 0);
      assert a[..0] + a[1..] == a[1..];
      CountOfPermutation(a[1..], b[..k] + b[k + 1..], p);
      SelectOfConcat(b[..k], b[k + 1..], p);
      SelectOfConcat(b[..k], [b[k]] + b[k + 1..], p);
      SelectOfConcat([b[k]], b[k + 1..], p);
      SelectOfConcat([a[0]], a[1..], p);
    }
  }

  /** On a sorted board the rows above a tie group are those before its first row. */
  lemma {:induction false} AboveIsPrefix(board: seq<Row>, k: nat, points: nat)
    requires k <= |board|
    requires forall i :: 0 <= i < k ==> board[i].points > points
    requires forall i :: k <= i < |board| ==> board[i].points <= points
    ensures |Select(board, Above(points))| == k
  {
    if board != [] {
      AboveIsPrefix(board[1..], if k > 0 then k - 1 else 0, points);
    }
  }

  /** The rank by counting is the board rank of the first row of the player's tie group, plus the number of idle
      players with more points; on any sorted answer of the query. */
  lemma RankIsBoardRankPlusIdle(rows: seq<Row>, board: seq<Row>, id: string, k: nat)
    requires BoardOf(board, rows)
    requires Find(rows, id).Some? && Find(rows, id).value.verified
    requires k < |board| && board[k].points == Find(rows, id).value.points
    requires forall i :: 0 <= i < k ==> board[i].points != board[k].points
    ensures RankOf(rows, id).rank == (k + 1) + |IdleAbove(rows, board[k].points)|
  {
    var points := board[k].points;
    CountsSplit(rows, points);
    CountOfPermutation(board, Select(rows, OnBoard), Above(points));
    forall i | 0 <= i < |board| ensures if i < k then board[i].points > points else board[i].points <= points {
      if i < k { assert InOrder(board[i], board[k]); }
      if i > k { assert InOrder(board[k], board[i]); }
    }
    AboveIsPrefix(board, k, points);
  }

  lemma {:induction false} SelectIsFrom(rows: seq<Row>, p: Row -> bool, r: Row)
    ensures r in Select(rows, p) <==> r in rows && p(r)
  {
    if rows != [] {
      SelectIsFrom(rows[1..], p, r);
      assert r in rows <==> r == rows[0] || r in rows[1..];
    }
  }

  lemma {:induction false} IdleAboveIs(rows: seq<Row>, points: nat, r: Row)
    ensures r in IdleAbove(rows, points) <==> r in rows && Counted(r) && r.points > points && r.totalMatches == 0
  {
    SelectIsFrom(rows, (r: Row) => r.points > points && Counted(r) && r.totalMatches == 0, r);
  }

  /** The board holds exactly the verified, undeleted rows with a match, and more points, or more wins at equal points,
      come first. */
  lemma BetterIsBefore(rows: seq<Row>, board: seq<Row>, i: nat, j: nat, r: Row)
    requires BoardOf(board, rows) && i < |board| && j < |board|
    ensures board[i].points > board[j].points || (board[i].points == board[j].points && board[i].wins > board[j].wins)
      ==> i < j
    ensures r in board <==> r in rows && r.verified && !r.deleted && r.totalMatches > 0
  {
    SelectIsFrom(rows, OnBoard, r);
    assert r in board <==> r in multiset(board);
    assert r in Select(rows, OnBoard) <==> r in multiset(Select(rows, OnBoard));
    if j < i { assert InOrder(board[j], board[i]); }
  }

  /** Rows carry the ids of the users, so none occurs twice. */
  ghost predicate DistinctRows(rows: seq<Row>) {
    forall i, j :: 0 <= i < j < |rows| ==> rows[i].id != rows[j].id
  }

  ghost function Chosen(rows: seq<Row>, p: Row -> bool): set<Row> {
    set r | r in rows && p(r)
  }

  lemma ChosenOfRest(rows: seq<Row>, p: Row -> bool)
    requires DistinctRows(rows) && rows != []
    ensures DistinctRows(rows[1..]) && rows[0] !in Chosen(rows[1..], p)
    ensures Chosen(rows, p) == Chosen(rows[1..], p) + (if p(rows[0]) then {rows[0]} else {})
  {
    var rest := rows[1..];
    assert forall i :: 0 <= i < |rest| ==> rest[i] == rows[i + 1];
    assert rows[0] !in rest;
    assert forall r :: r in rows <==> r == rows[0] || r in rest;
  }

  lemma {:induction false} SelectCounts(rows: seq<Row>, p: Row -> bool)
    requires DistinctRows(rows)
    ensures |Select(rows, p)| == |Chosen(rows, p)|
  {
    hide Chosen, DistinctRows;
    if rows == [] {
      NoneChosen(p);
    } else {
      ChosenOfRest(rows, p);
      SelectCounts(rows[1..], p);
    }
  }

  lemma NoneChosen(p: Row -> bool)
    ensures Chosen([], p) == {}
  {
  }

  /** The answer of `getPlayerRank`: none for unknown or unverified users, and else one more than the number of
      verified, undeleted users with more points, out of all verified, undeleted users. */
  lemma PlayerRankIs(rows: seq<Row>, id: string)
    requires DistinctRows(rows)
    ensures RankOf(rows, id) == NoRank <==> (forall r :: r in rows && r.id == id ==> !r.verified)
    ensures forall r :: r in rows && r.id == id && r.verified ==>
      RankOf(rows, id) == PlayerRank(
        |set x | x in rows && x.verified && !x.deleted && x.points > r.points| + 1, r.points,
        |set x | x in rows && x.verified && !x.deleted|)
  {
    FoundIsTheRow(rows, id);
    forall r | r in rows && r.id == id && r.verified
      ensures RankOf(rows, id) == PlayerRank(
        |set x | x in rows && x.verified && !x.deleted && x.points > r.points| + 1, r.points,
        |set x | x in rows && x.verified && !x.deleted|)
    {
      SelectCounts(rows, CountedAbove(r.points));
      SelectCounts(rows, Counted);
      ChosenAbove(rows, r.points);
    }
  }

  lemma ChosenAbove(rows: seq<Row>, points: nat)
    ensures Chosen(rows, CountedAbove(points))
         == set x | x in rows && x.verified && !x.deleted && x.points > points
    ensures Chosen(rows, Counted) == set x | x in rows && x.verified && !x.deleted
  {
  }

  lemma {:induction false} FoundIsTheRow(rows: seq<Row>, id: string)
    requires DistinctRows(rows)
    ensures Find(rows, id).None? <==> forall r :: r in rows ==> r.id != id
    ensures forall r :: r in rows && r.id == id ==> Find(rows, id) == Some(r)
  {
    if rows != [] {
      var rest := rows[1..];
      assert forall i :: 0 <= i < |rest| ==> rest[i] == rows[i + 1];
      FoundIsTheRow(rest, id);
      assert rows == [rows[0]] + rest;
      assert forall r :: r in rest ==> r.id != rows[0].id;
    }
  }

  /** Rank agreement: a player on the board gets the rank of the first row of his tie group if and only if no
      verified, undeleted player without a match has more points. */
  lemma RanksAgreeIff(rows: seq<Row>, board: seq<Row>, id: string) returns (k: nat)
    requires BoardOf(board, rows) && Find(rows, id).Some? && OnBoard(Find(rows, id).value)
    ensures k < |board| && board[k].points == Find(rows, id).value.points
    ensures forall i :: 0 <= i < k ==> board[i].points != board[k].points
    ensures Page(board, |board|, 0)[k].rank == k + 1
    ensures RankOf(rows, id).rank == Page(board, |board|, 0)[k].rank <==>
      (forall r :: r in rows && Counted(r) && r.points > board[k].points ==> r.totalMatches > 0)
  {
    var user := Find(rows, id).value;
    FoundIsRow(rows, id);
    SelectIsFrom(rows, OnBoard, user);
    assert user in multiset(board);
    k := FirstWith(board, user);
    RankIsBoardRankPlusIdle(rows, board, id, k);
    NoIdleIff(rows, user.points);
  }

  lemma NoIdleIff(rows: seq<Row>, points: nat)
    ensures IdleAbove(rows, points) == [] <==>
      (forall r :: r in rows && Counted(r) && r.points > points ==> r.totalMatches > 0)
  {
    var idle := IdleAbove(rows, points);
    if idle != [] {
      IdleAboveIs(rows, points, idle[0]);
    }
    forall r | r in rows && Counted(r) && r.points > points && idle == [] ensures r.totalMatches > 0 {
      IdleAboveIs(rows, points, r);
    }
  }

  lemma {:induction false} FoundIsRow(rows: seq<Row>, id: string)
    ensures Find(rows, id).Some? ==> Find(rows, id).value in rows
  {
    if rows != [] { FoundIsRow(rows[1..], id); }
  }

  lemma {:induction false} FirstWith(board: seq<Row>, user: Row) returns (k: nat)
    requires user in board
    ensures k < |board| && board[k].points == user.points && forall i :: 0 <= i < k ==> board[i].points != user.points
  {
    if board[0].points == user.points {
      k := 0;
    } else {
      var rest := FirstWith(board[1..], user);
      k := rest + 1;
      assert forall i :: 1 <= i < k ==> board[i] == board[1..][i - 1];
    }
  }

  // ---------------------------------------------------------------------------------------------
  // Pages
  // ---------------------------------------------------------------------------------------------

  /** The pages of the given size from an offset on, until an empty one. */
  function Pages(board: seq<Row>, limit: nat, offset: nat): seq<Ranked>
    requires limit > 0
    decreases |board| - offset
  {
    if offset >= |board| then [] else Page(board, limit, offset) + Pages(board, limit, offset + limit)
  }

  /** The whole board from an offset on, ranked. */
  function RankedFrom(board: seq<Row>, offset: nat): seq<Ranked>
    requires offset <= |board|
  {
    seq(|board| - offset, i requires 0 <= i < |board| - offset => Ranked(offset + i + 1, board[offset + i]))
  }

  lemma PageThenRest(board: seq<Row>, limit: nat, offset: nat)
    requires offset < |board|
    ensures offset + limit > |board| ==> Page(board, limit, offset) == RankedFrom(board, offset)
    ensures offset + limit <= |board| ==>
      Page(board, limit, offset) + RankedFrom(board, offset + limit) == RankedFrom(board, offset)
  {
  }

  /** Consecutive pages put together list every row of the board once, ranked 1 to n. */
  lemma {:induction false} PagesAreTheBoard(board: seq<Row>, limit: nat, offset: nat)
    requires limit > 0 && offset <= |board|
    ensures Pages(board, limit, offset) == RankedFrom(board, offset)
    decreases |board| - offset
  {
    if offset < |board| {
      PageThenRest(board, limit, offset);
      if offset + limit <= |board| {
        PagesAreTheBoard(board, limit, offset + limit);
      } else {
        assert Page(board, limit, offset) + [] == Page(board, limit, offset);
      }
    }
  }
}
