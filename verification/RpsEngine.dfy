/** Rock-paper-scissors rules: one round, and the first-to-two match. */
module RpsEngine {
  import opened Wrappers

  datatype Move = Rock | Paper | Scissors

  datatype RoundResult = Player1 | Player2 | Draw

  datatype RoundOutcome = RoundOutcome(result: RoundResult, winnerId: Option<string>)

  datatype MatchResult = MatchResult(winnerId: Option<string>, isComplete: bool)

  /** The BEATS table: the move that `m` defeats. */
  function Beats(m: Move): Move {
    match m
    case Rock => Scissors
    case Paper => Rock
    case Scissors => Paper
  }

  /** The rules of the game, without the table. */
  predicate Defeats(m1: Move, m2: Move) {
    (m1.Rock? && m2.Scissors?) || (m1.Scissors? && m2.Paper?) || (m1.Paper? && m2.Rock?)
  }

  /** The code tests only whether move 1 beats move 2; that move 2 beats move 1 in the remaining case is a fact
      about the table. */
  function ResolveRound(m1: Move, m2: Move, p1: string, p2: string): (r: RoundOutcome)
    ensures r.result == Player2 <==> Beats(m2) == m1
    ensures r.result == Player1 <==> Defeats(m1, m2)
    ensures r.result == Player2 <==> Defeats(m2, m1)
    ensures r.winnerId == if Defeats(m1, m2) then Some(p1) else if Defeats(m2, m1) then Some(p2) else None
    ensures r.winnerId.None? <==> m1 == m2
  {
    if m1 == m2 then RoundOutcome(Draw, None)
    else if Beats(m1) == m2 then RoundOutcome(Player1, Some(p1))
    else RoundOutcome(Player2, Some(p2))
  }

  /** The five-win branch never fires: a complete match always has a winner, and it is complete exactly when a
      player has two wins. */
  function ResolveMatch(w1: nat, w2: nat, p1: string, p2: string): (r: MatchResult)
    ensures r.isComplete <==> w1 >= 2 || w2 >= 2
    ensures r.isComplete <==> r.winnerId.Some?
  {
    if w1 >= 2 then MatchResult(Some(p1), true)
    else if w2 >= 2 then MatchResult(Some(p2), true)
    else if w1 + w2 >= 5 then
      MatchResult(if w1 > w2 then Some(p1) else if w2 > w1 then Some(p2) else None, true)
    else MatchResult(None, false)
  }

  /** `isValidMove` and the cast that follows it. */
  function ParseMove(s: string): Option<Move> {
    if s == "rock" then Some(Rock)
    else if s == "paper" then Some(Paper)
    else if s == "scissors" then Some(Scissors)
    else None
  }
}
