/**
 The tic-tac-toe `Board` component (components/Board.tsx): nine cells, the
 player to move, and the `winner` state, whose values are no winner yet,
 a mark, or "Both" for a draw.
 */
module TicTacToe {
  import opened Wrappers

  datatype Mark = X | O

  /** A cell is empty (`null`) or holds a mark. */
  type Cell = Option<Mark>

  /** The `winner` state: `null`, `"X"`/`"O"`, or `"Both"`. */
  datatype Winner = NoWinner | Won(mark: Mark) | Both

  datatype Game = Game(squares: seq<Cell>, current: Mark, winner: Winner)

  /** The eight lines `calculateWinner` tests, in its order. */
  const Lines: seq<(nat, nat, nat)> :=
    [(0, 1, 2), (3, 4, 5), (6, 7, 8), (0, 3, 6), (1, 4, 7), (2, 5, 8), (0, 4, 8), (2, 4, 6)]

  /** Line `k` is filled with `m` in all three of its cells. */
  predicate Complete(squares: seq<Cell>, k: nat, m: Mark)
    requires |squares| == 9 && k < 8
  {
    var (a, b, c) := Lines[k];
    squares[a] == Some(m) && squares[b] == Some(m) && squares[c] == Some(m)
  }

  /** The loop of `calculateWinner` from line `i` on: the mark of the first complete line. */
  function WinnerFrom(squares: seq<Cell>, i: nat): (r: Option<Mark>)
    requires |squares| == 9 && i <= 8
    ensures r.None? <==> forall k, m :: i <= k < 8 ==> !Complete(squares, k, m)
    ensures r.Some? ==>
      exists k :: i <= k < 8 && Complete(squares, k, r.value) && (forall j, m :: i <= j < k ==> !Complete(squares, j, m))
    decreases 8 - i
  {
    if i == 8 then None
    else
      var (a, b, c) := Lines[i];
      if squares[a].Some? && squares[a] == squares[b] && squares[a] == squares[c] then
        assert Complete(squares, i, squares[a].value);
        squares[a]
      else
        assert forall m :: !Complete(squares, i, m);
        WinnerFrom(squares, i + 1)
  }

  /** `calculateWinner`: the mark of the first complete line in list order, or `null`. */
  function CalculateWinner(squares: seq<Cell>): (r: Option<Mark>)
    requires |squares| == 9
    ensures r.None? <==> forall k, m :: 0 <= k < 8 ==> !Complete(squares, k, m)
    ensures r.Some? ==>
      exists k :: 0 <= k < 8 && Complete(squares, k, r.value) && (forall j, m :: 0 <= j < k ==> !Complete(squares, j, m))
  {
    WinnerFrom(squares, 0)
  }

  /** No cell is empty: `!squares.filter(square => !square).length`. */
  predicate Full(squares: seq<Cell>) {
    forall i :: 0 <= i < |squares| ==> squares[i].Some?
  }

  function Other(m: Mark): (r: Mark)
    ensures r != m
  {
    if m == X then O else X
  }

  /** `setSquareValue`: the current player's mark goes into cell `index`, and the turn passes. */
  function SetSquareValue(g: Game, index: int): (r: Game)
    ensures |r.squares| == |g.squares|
    ensures 0 <= index < |g.squares| ==> r.squares == g.squares[index := Some(g.current)]
    ensures !(0 <= index < |g.squares|) ==> r.squares == g.squares
    ensures r.current != g.current
    ensures r.winner == g.winner
  {
    var squares := seq(|g.squares|, i requires 0 <= i < |g.squares| =>
      if i == index then Some(g.current) else g.squares[i]);
    Game(squares, Other(g.current), g.winner)
  }

  /**
   The effect run after the squares change: a complete line sets the
   winner, a full board with none sets "Both", and otherwise the winner
   is left as it was.
   */
  function Settle(g: Game): (r: Game)
    requires |g.squares| == 9
    ensures r.squares == g.squares && r.current == g.current
    ensures CalculateWinner(g.squares).Some? ==> r.winner == Won(CalculateWinner(g.squares).value)
    ensures r.winner == Both <==>
      CalculateWinner(g.squares).None? && (Full(g.squares) || g.winner == Both)
    ensures CalculateWinner(g.squares).None? && !Full(g.squares) ==> r.winner == g.winner
  {
    var w := CalculateWinner(g.squares);
    var g1 := if w.Some? then g.(winner := Won(w.value)) else g;
    if w.None? && Full(g.squares) then g1.(winner := Both) else g1
  }

  /**
   A click on cell `index`: the button is disabled while the cell holds a
   mark or there is a winner, and then nothing happens.
   */
  function Click(g: Game, index: nat): (r: Game)
    requires |g.squares| == 9 && index < 9
    ensures g.squares[index].Some? || g.winner != NoWinner ==> r == g
    ensures g.squares[index].None? && g.winner == NoWinner ==>
      && r.squares == g.squares[index := Some(g.current)]
      && r.current == Other(g.current)
  {
    if g.squares[index].Some? || g.winner != NoWinner then g
    else Settle(SetSquareValue(g, index))
  }

  /** `reset`: nine empty cells, no winner, and a first player drawn at random (here a parameter). */
  function Reset(first: Mark): (r: Game)
    ensures |r.squares| == 9
    ensures forall i :: 0 <= i < 9 ==> r.squares[i].None?
    ensures r.winner == NoWinner && r.current == first
  {
    Game(seq(9, i => None), first, NoWinner)
  }
}
