/**
 Properties of whole tic-tac-toe games: the first complete line decides
 the winner, the `winner` state always agrees with the board, and the
 two players' mark counts never drift apart by more than one.
 */
module TicTacToeProperties {
  import opened Wrappers
  import opened TicTacToe

  /** When line `k` is the first complete one, its mark is the winner. */
  lemma FirstCompleteLineDecides(squares: seq<Cell>, k: nat, m: Mark)
    requires |squares| == 9 && k < 8
    requires Complete(squares, k, m)
    requires forall j, m' :: 0 <= j < k ==> !Complete(squares, j, m')
    ensures CalculateWinner(squares) == Some(m)
  {
  }

  /** The board `reset` produces has no winner. */
  lemma EmptyBoardHasNoWinner()
    ensures CalculateWinner(seq(9, i => None)) == None
  {
  }

  /** How many cells hold `m`. */
  function Count(squares: seq<Cell>, m: Mark): nat {
    multiset(squares)[Some(m)]
  }

  /**
   The `winner` state agrees with the board: no winner means no complete
   line and an empty cell left, a mark means `calculateWinner` names it,
   and "Both" means a full board with no complete line.
   */
  predicate Agrees(g: Game)
    requires |g.squares| == 9
  {
    && (g.winner == NoWinner ==> CalculateWinner(g.squares).None? && !Full(g.squares))
    && (g.winner.Won? ==> CalculateWinner(g.squares) == Some(g.winner.mark))
    && (g.winner == Both ==> CalculateWinner(g.squares).None? && Full(g.squares))
  }

  /** The player to move has placed as many marks as the other, or one fewer. */
  predicate Balanced(g: Game) {
    Count(g.squares, g.current) <= Count(g.squares, Other(g.current)) <= Count(g.squares, g.current) + 1
  }

  predicate Playable(g: Game) {
    |g.squares| == 9 && Agrees(g) && Balanced(g)
  }

  /** Every game starts playable, whoever is drawn to move first. */
  lemma ResetPlayable(first: Mark)
    ensures Playable(Reset(first))
  {
  }

  /** Playing a cell adds one mark of the mover and none of the other player. */
  lemma CountAfterPlay(squares: seq<Cell>, index: nat, m: Mark)
    requires index < |squares| && squares[index].None?
    ensures Count(squares[index := Some(m)], m) == Count(squares, m) + 1
    ensures Count(squares[index := Some(m)], Other(m)) == Count(squares, Other(m))
  {
  }

  /** Every click keeps a game playable. */
  lemma ClickPlayable(g: Game, index: nat)
    requires Playable(g) && index < 9
    ensures Playable(Click(g, index))
  {
  }

  /** After a click on a playable game, the winner is "Both" exactly when no line is complete and no cell is empty. */
  lemma DrawExactly(g: Game, index: nat)
    requires Playable(g) && index < 9
    ensures var r := Click(g, index);
      r.winner == Both <==> CalculateWinner(r.squares).None? && Full(r.squares)
  {
  }

  /** Once there is a winner or a draw, no click changes the game. */
  lemma DecidedGameIsFrozen(g: Game, index: nat)
    requires |g.squares| == 9 && index < 9 && g.winner != NoWinner
    ensures Click(g, index) == g
  {
  }
}
