/** Paging through the leaderboard: every page is its own query, and the database may order ties differently each
    time. */
module LeaderboardPages {
  import opened Lists
  import opened Leaderboard

  /** The offset of a page, `page * limit`. */
  function Offset(limit: nat, page: nat): (offset: nat)
    requires limit > 0
    ensures offset >= page
  {
    if page == 0 then 0 else Offset(limit, page - 1) + limit
  }

  /** The listing a client collects from a page on: page k of the k-th answer, until the table ends. */
  function Listing(answers: seq<seq<Row>>, limit: nat, page: nat, n: nat): seq<Ranked>
    requires limit > 0 && |answers| >= n
    decreases if Offset(limit, page) < n then n - Offset(limit, page) else 0
  {
    if Offset(limit, page) >= n then []
    else Page(answers[page], limit, Offset(limit, page)) + Listing(answers, limit, page + 1, n)
  }

  /** Every query is answered by some sorted board of the table; n queries are enough. */
  ghost predicate AnswersOf(answers: seq<seq<Row>>, rows: seq<Row>) {
    && |answers| >= |Select(rows, OnBoard)|
    && (forall page :: 0 <= page < |answers| ==> BoardOf(answers[page], rows))
  }

  function RowsOf(listing: seq<Ranked>): seq<Row> {
    seq(|listing|, i requires 0 <= i < |listing| => listing[i].row)
  }

  /** The listing holds every row of the board exactly as often as the table. */
  ghost predicate ListsAll(answers: seq<seq<Row>>, rows: seq<Row>, limit: nat)
    requires limit > 0 && AnswersOf(answers, rows)
  {
    multiset(RowsOf(Listing(answers, limit, 0, |Select(rows, OnBoard)|))) == multiset(Select(rows, OnBoard))
  }

  predicate Tie(a: Row, b: Row) {
    a.points == b.points && a.wins == b.wins
  }

  /** No tie group is cut by a page boundary of the given page size. */
  ghost predicate NoTieAcross(board: seq<Row>, limit: nat)
    requires limit > 0
  {
    forall page :: 0 < Offset(limit, page) < |board| ==>
      !Tie(board[Offset(limit, page) - 1], board[Offset(limit, page)])
  }

  ghost predicate DistinctIds(rows: seq<Row>) {
    forall i, j :: 0 <= i < j < |rows| ==> rows[i].id != rows[j].id
  }

  // ---------------------------------------------------------------------------------------------
  // Ranks
  // ---------------------------------------------------------------------------------------------

  lemma BoardSize(board: seq<Row>, rows: seq<Row>)
    requires BoardOf(board, rows)
    ensures |board| == |Select(rows, OnBoard)|
  {
    assert |multiset(board)| == |multiset(Select(rows, OnBoard))|;
  }

  lemma PageIs(board: seq<Row>, limit: nat, offset: nat)
    requires offset < |board|
    ensures |Page(board, limit, offset)| == Min(limit, |board| - offset)
    ensures forall i :: 0 <= i < |Page(board, limit, offset)| ==>
      Page(board, limit, offset)[i] == Ranked(offset + i + 1, board[offset + i])
  {
  }

  /** Pages of different answers always carry the ranks 1 to n in order. */
  lemma {:induction false} RanksAreConsecutive(answers: seq<seq<Row>>, rows: seq<Row>, limit: nat, page: nat)
    requires limit > 0 && AnswersOf(answers, rows)
    ensures
      var n, offset := |Select(rows, OnBoard)|, Offset(limit, page);
      var listing := Listing(answers, limit, page, n);
      && |listing| == (if offset < n then n - offset else 0)
      && forall i :: 0 <= i < |listing| ==> listing[i].rank == offset + i + 1
    decreases
      var n := |Select(rows, OnBoard)|; if Offset(limit, page) < n then n - Offset(limit, page) else 0
  {
    hide Page, BoardOf, Select;
    var offset := Offset(limit, page);
    if offset < |Select(rows, OnBoard)| {
      BoardSize(answers[page], rows);
      PageIs(answers[page], limit, offset);
      RanksAreConsecutive(answers, rows, limit, page + 1);
    }
  }

  // ---------------------------------------------------------------------------------------------
  // Rows: enough
  // ---------------------------------------------------------------------------------------------

  function AtLeast(r: Row): Row -> bool {
    (x: Row) => InOrder(x, r)
  }

  /** On a sorted board the rows at least as good as a given one come first. */
  lemma {:induction false} PrefixLength(board: seq<Row>, r: Row)
    requires forall i, j :: 0 <= i < j < |board| ==> InOrder(board[i], board[j])
    ensures |Select(board, AtLeast(r))| <= |board|
    ensures forall i :: 0 <= i < |board| ==> (i < |Select(board, AtLeast(r))| <==> InOrder(board[i], r))
  {
    if board != [] {
      PrefixLength(board[1..], r);
      assert forall i :: 1 <= i < |board| ==> board[i] == board[1..][i - 1];
      if !InOrder(board[0], r) {
        forall i | 1 <= i < |board| ensures !InOrder(board[i], r) {
          assert InOrder(board[0], board[i]);
        }
      }
    }
  }

  /** How often a row occurs in a prefix that holds exactly the rows at least as good as r. */
  lemma CountInPrefix(board: seq<Row>, k: nat, r: Row, x: Row)
    requires k <= |board|
    requires forall i :: 0 <= i < |board| ==> (i < k <==> InOrder(board[i], r))
    ensures multiset(board[..k])[x] == if InOrder(x, r) then multiset(board)[x] else 0
  {
    assert board == board[..k] + board[k..];
    if InOrder(x, r) {
      assert x !in board[k..];
    } else {
      assert x !in board[..k];
    }
  }

  /** The rows before a boundary between different scores are those at least as good as the last of them. */
  lemma PrefixIsAtLeast(a: seq<Row>, rows: seq<Row>, k: nat)
    requires BoardOf(a, rows) && 0 < k < |a| && !Tie(a[k - 1], a[k])
    ensures |Select(a, AtLeast(a[k - 1]))| == k
  {
    PrefixLength(a, a[k - 1]);
    assert InOrder(a[k - 1], a[k]) && InOrder(a[k - 1], a[k - 1]);
  }

  /** A boundary between different scores cuts every answer into the same two sets of rows. */
  lemma SamePrefix(a: seq<Row>, b: seq<Row>, rows: seq<Row>, k: nat)
    requires BoardOf(a, rows) && BoardOf(b, rows) && 0 < k < |a| && !Tie(a[k - 1], a[k])
    ensures |b| == |a| && multiset(b[..k]) == multiset(a[..k])
  {
    BoardSize(a, rows);
    BoardSize(b, rows);
    var r := a[k - 1];
    PrefixIsAtLeast(a, rows, k);
    CountOfPermutation(a, b, AtLeast(r));
    PrefixLength(a, r);
    PrefixLength(b, r);
    hide Select, AtLeast, InOrder, BoardOf;
    forall x ensures multiset(b[..k])[x] == multiset(a[..k])[x] {
      CountInPrefix(a, k, r, x);
      CountInPrefix(b, k, r, x);
    }
  }

  lemma RowsOfConcat(a: seq<Ranked>, b: seq<Ranked>)
    ensures RowsOf(a + b) == RowsOf(a) + RowsOf(b)
  {
  }

  lemma RowsOfPage(board: seq<Row>, limit: nat, offset: nat)
    requires offset < |board|
    ensures RowsOf(Page(board, limit, offset)) == board[offset..Min(offset + limit, |board|)]
  {
    PageIs(board, limit, offset);
  }

  lemma SameRest(a: seq<Row>, b: seq<Row>, k: nat)
    requires multiset(a) == multiset(b) && k <= |a| && k <= |b| && multiset(a[..k]) == multiset(b[..k])
    ensures multiset(a[k..]) == multiset(b[k..])
  {
    assert a == a[..k] + a[k..] && b == b[..k] + b[k..];
    assert multiset(a[k..]) == multiset(a) - multiset(a[..k]);
    assert multiset(b[k..]) == multiset(b) - multiset(b[..k]);
  }

  lemma SamePrefixAt(board: seq<Row>, a: seq<Row>, rows: seq<Row>, limit: nat, page: nat)
    requires limit > 0 && BoardOf(board, rows) && BoardOf(a, rows) && NoTieAcross(board, limit)
    requires Offset(limit, page) < |board|
    ensures |a| == |board| && multiset(a[..Offset(limit, page)]) == multiset(board[..Offset(limit, page)])
    ensures multiset(a[Offset(limit, page)..]) == multiset(board[Offset(limit, page)..])
  {
    BoardSize(board, rows);
    BoardSize(a, rows);
    if Offset(limit, page) > 0 { SamePrefix(board, a, rows, Offset(limit, page)); }
    SameRest(a, board, Offset(limit, page));
  }

  lemma CutInTwo(a: seq<Row>, i: nat, j: nat)
    requires i <= j <= |a|
    ensures multiset(a[i..]) == multiset(a[i..j]) + multiset(a[j..])
  {
    assert a[i..] == a[i..j] + a[j..];
  }

  /** From a page on, the listing holds the same rows as any one answer. */
  lemma {:induction false} ListsRest(answers: seq<seq<Row>>, board: seq<Row>, rows: seq<Row>, limit: nat, page: nat)
    requires limit > 0 && AnswersOf(answers, rows) && BoardOf(board, rows) && NoTieAcross(board, limit)
    requires Offset(limit, page) < |board| == |Select(rows, OnBoard)|
    ensures multiset(RowsOf(Listing(answers, limit, page, |board|))) == multiset(board[Offset(limit, page)..])
    decreases |board| - Offset(limit, page)
  {
    hide BoardOf, NoTieAcross, Page, RowsOf, Select;
    var a, offset, next := answers[page], Offset(limit, page), Offset(limit, page + 1);
    SamePrefixAt(board, a, rows, limit, page);
    RowsOfPage(a, limit, offset);
    RowsOfConcat(Page(a, limit, offset), Listing(answers, limit, page + 1, |board|));
    CutInTwo(a, offset, Min(next, |a|));
    if next < |board| {
      ListsRest(answers, board, rows, limit, page + 1);
      SamePrefixAt(board, a, rows, limit, page + 1);
    } else {
      NoRows();
    }
  }

  lemma NoRows()
    ensures RowsOf([]) == []
  {
  }

  // ---------------------------------------------------------------------------------------------
  // Rows: needed
  // ---------------------------------------------------------------------------------------------

  /** Two tied neighbours may come in the other order. */
  function Swapped(board: seq<Row>, b: nat): seq<Row>
    requires 0 < b < |board|
  {
    board[b - 1 := board[b]][b := board[b - 1]]
  }

  lemma SwappedIsBoard(board: seq<Row>, rows: seq<Row>, b: nat)
    requires BoardOf(board, rows) && 0 < b < |board| && Tie(board[b - 1], board[b])
    ensures BoardOf(Swapped(board, b), rows)
  {
    var other := Swapped(board, b);
    forall i, j | 0 <= i < j < |other| ensures InOrder(other[i], other[j]) {
      var i', j' := if i == b then b - 1 else i, if j == b - 1 then b else j;
      assert i < j ==> InOrder(board[i], board[j]);
      assert i != b - 1 && i != b && j != b - 1 && j != b ==> InOrder(other[i], other[j]);
      assert i < b - 1 ==> InOrder(board[i], board[b - 1]);
      assert j > b ==> InOrder(board[b], board[j]);
    }
  }

  /** One answer for the pages before the given one, another from there on. */
  function TwoAnswers(first: seq<Row>, second: seq<Row>, page: nat): (answers: seq<seq<Row>>)
    ensures |answers| == |first|
    ensures forall p :: 0 <= p < |answers| ==> answers[p] == if p < page then first else second
  {
    seq(|first|, p => if p < page then first else second)
  }

  lemma {:induction false} OffsetIncreases(limit: nat, p: nat, q: nat)
    requires limit > 0 && p < q
    ensures Offset(limit, p) + limit <= Offset(limit, q)
  {
    if p + 1 < q { OffsetIncreases(limit, p, q - 1); }
  }

  /** The row at a position of the listing. */
  function RowAt(first: seq<Row>, second: seq<Row>, b: nat, i: nat): Row
    requires i < |first| == |second|
  {
    if i < b then first[i] else second[i]
  }

  lemma PageOfTwo(first: seq<Row>, second: seq<Row>, page: nat, limit: nat, p: nat)
    requires limit > 0 && |first| == |second| && Offset(limit, p) < |first|
    ensures
      var rows, offset := RowsOf(Page(TwoAnswers(first, second, page)[p], limit, Offset(limit, p))), Offset(limit, p);
      && |rows| == Min(limit, |first| - offset)
      && forall k :: 0 <= k < |rows| ==> rows[k] == RowAt(first, second, Offset(limit, page), offset + k)
  {
    hide Page, RowsOf, TwoAnswers, Offset;
    RowsOfPage(TwoAnswers(first, second, page)[p], limit, Offset(limit, p));
    if p < page {
      OffsetIncreases(limit, p, page);
    } else if page < p {
      OffsetIncreases(limit, page, p);
    }
  }

  lemma {:induction false} ListingOfTwo(first: seq<Row>, second: seq<Row>, page: nat, limit: nat, p: nat)
    requires limit > 0 && |first| == |second|
    ensures
      var listing, offset := RowsOf(Listing(TwoAnswers(first, second, page), limit, p, |first|)), Offset(limit, p);
      && |listing| == (if offset < |first| then |first| - offset else 0)
      && forall k :: 0 <= k < |listing| ==> listing[k] == RowAt(first, second, Offset(limit, page), offset + k)
    decreases if Offset(limit, p) < |first| then |first| - Offset(limit, p) else 0
  {
    hide Page, RowsOf, RowAt;
    var answers, offset := TwoAnswers(first, second, page), Offset(limit, p);
    if offset < |first| {
      ListingOfTwo(first, second, page, limit, p + 1);
      RowsOfConcat(Page(answers[p], limit, offset), Listing(answers, limit, p + 1, |first|));
      PageOfTwo(first, second, page, limit, p);
    } else {
      NoRows();
    }
  }

  lemma {:induction false} SelectKeepsDistinct(rows: seq<Row>)
    requires DistinctIds(rows)
    ensures DistinctIds(Select(rows, OnBoard))
  {
    if rows != [] {
      var rest := Select(rows[1..], OnBoard);
      SelectKeepsDistinct(rows[1..]);
      forall i | 0 <= i < |rest| ensures rest[i].id != rows[0].id {
        SelectIsFrom(rows[1..], OnBoard, rest[i]);
        var j :| 0 <= j < |rows[1..]| && rows[1..][j] == rest[i];
        assert rows[j + 1] == rest[i];
      }
      assert Select(rows, OnBoard) == (if OnBoard(rows[0]) then [rows[0]] else []) + rest;
    }
  }

  lemma {:induction false} DistinctCount(rows: seq<Row>, x: Row)
    requires DistinctIds(rows)
    ensures multiset(rows)[x] <= 1
  {
    if rows != [] {
      DistinctCount(rows[1..], x);
      assert rows == [rows[0]] + rows[1..];
      if x == rows[0] {
        assert forall j :: 0 <= j < |rows[1..]| ==> rows[1..][j] == rows[j + 1];
        assert x !in rows[1..];
      }
    }
  }

  lemma TwiceInSeq(s: seq<Row>, i: nat, x: Row)
    requires 0 < i < |s| && s[i - 1] == x && s[i] == x
    ensures multiset(s)[x] >= 2
  {
    assert s == s[..i - 1] + ([s[i - 1]] + ([s[i]] + s[i + 1..]));
  }

  lemma ListingOfTwoAt(first: seq<Row>, second: seq<Row>, page: nat, limit: nat, k: nat)
    requires limit > 0 && k < |first| == |second|
    ensures
      var listing := RowsOf(Listing(TwoAnswers(first, second, page), limit, 0, |first|));
      |listing| == |first| && listing[k] == RowAt(first, second, Offset(limit, page), k)
  {
    hide Listing, RowsOf, RowAt, TwoAnswers;
    ListingOfTwo(first, second, page, limit, 0);
  }

  lemma SwappedAt(board: seq<Row>, b: nat)
    requires 0 < b < |board|
    ensures |Swapped(board, b)| == |board|
    ensures RowAt(board, Swapped(board, b), b, b - 1) == RowAt(board, Swapped(board, b), b, b) == board[b - 1]
  {
  }

  /** If the second query swaps the two rows at a boundary, the first of them is listed twice. */
  lemma ListedTwice(board: seq<Row>, limit: nat, page: nat)
    requires limit > 0 && 0 < Offset(limit, page) < |board|
    ensures
      var b := Offset(limit, page);
      multiset(RowsOf(Listing(TwoAnswers(board, Swapped(board, b), page), limit, 0, |board|)))[board[b - 1]] >= 2
  {
    hide Listing, RowsOf, Swapped, RowAt, TwoAnswers, Offset;
    var b := Offset(limit, page);
    SwappedAt(board, b);
    ListingOfTwoAt(board, Swapped(board, b), page, limit, b - 1);
    ListingOfTwoAt(board, Swapped(board, b), page, limit, b);
    TwiceInSeq(RowsOf(Listing(TwoAnswers(board, Swapped(board, b), page), limit, 0, |board|)), b, board[b - 1]);
  }

  /** So with a tie across a boundary some answers do not list every row once. */
  lemma TieListsTwice(board: seq<Row>, rows: seq<Row>, limit: nat, page: nat)
    requires limit > 0 && BoardOf(board, rows) && DistinctIds(rows)
    requires var b := Offset(limit, page); 0 < b < |board| && Tie(board[b - 1], board[b])
    ensures
      var answers := TwoAnswers(board, Swapped(board, Offset(limit, page)), page);
      AnswersOf(answers, rows) && !ListsAll(answers, rows, limit)
  {
    hide Listing, RowsOf, BoardOf, Select, DistinctIds, Swapped;
    var b := Offset(limit, page);
    BoardSize(board, rows);
    SwappedIsBoard(board, rows, b);
    ListedTwice(board, limit, page);
    SelectKeepsDistinct(rows);
    DistinctCount(Select(rows, OnBoard), board[b - 1]);
  }

  /** Whatever order each query gives to ties, the pages list every row once, if and only if no tie group is cut by a
      boundary of this page size. */
  lemma PagesListAllIff(board: seq<Row>, rows: seq<Row>, limit: nat)
    requires limit > 0 && BoardOf(board, rows) && DistinctIds(rows)
    ensures (forall answers :: AnswersOf(answers, rows) ==> ListsAll(answers, rows, limit)) <==>
      NoTieAcross(board, limit)
  {
    BoardSize(board, rows);
    if NoTieAcross(board, limit) {
      forall answers | AnswersOf(answers, rows) ensures ListsAll(answers, rows, limit) {
        if board != [] {
          ListsRest(answers, board, rows, limit, 0);
          assert board[0..] == board;
        } else {
          assert Select(rows, OnBoard) == [];
        }
      }
    } else {
      var page :| 0 < Offset(limit, page) < |board| && Tie(board[Offset(limit, page) - 1], board[Offset(limit, page)]);
      TieListsTwice(board, rows, limit, page);
    }
  }

  lemma {:induction false} OffsetOfOne(page: nat)
    ensures Offset(1, page) == page
  {
    if page > 0 { OffsetOfOne(page - 1); }
  }

  lemma NeighboursTie(board: seq<Row>, i: nat, j: nat)
    requires forall i, j :: 0 <= i < j < |board| ==> InOrder(board[i], board[j])
    requires i < j < |board| && Tie(board[i], board[j])
    ensures Tie(board[i], board[i + 1])
  {
    assert InOrder(board[i], board[i + 1]) && (i + 1 < j ==> InOrder(board[i + 1], board[j]));
  }

  /** For all page sizes: if and only if no two rows of the board tie. */
  lemma EveryPagingListsAllIff(board: seq<Row>, rows: seq<Row>)
    requires BoardOf(board, rows) && DistinctIds(rows)
    ensures
      (forall limit: nat, answers :: limit > 0 && AnswersOf(answers, rows) ==> ListsAll(answers, rows, limit)) <==>
      (forall i, j :: 0 <= i < j < |board| ==> !Tie(board[i], board[j]))
  {
    if i: nat, j: nat :| i < j < |board| && Tie(board[i], board[j]) {
      NeighboursTie(board, i, j);
      OffsetOfOne(i + 1);
      TieListsTwice(board, rows, 1, i + 1);
    } else {
      forall limit: nat, answers | limit > 0 && AnswersOf(answers, rows) ensures ListsAll(answers, rows, limit) {
        PagesListAllIff(board, rows, limit);
      }
    }
  }
}
