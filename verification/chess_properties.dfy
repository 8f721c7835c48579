/**
 Properties of chess moves and selections: no piece disappears from the
 board without being counted as lost, a king's recorded position follows
 its moves, and selecting a piece twice undoes the selection.
 */
module ChessProperties {
  import opened Wrappers
  import opened Chess

  /** What a square holds, ignoring where it is and whether it is selected. */
  function KindOf(piece: Piece): (Team, PieceType) {
    (piece.team, piece.typ)
  }

  function Kinds(row: seq<Piece>): (r: seq<(Team, PieceType)>)
    ensures |r| == |row|
    ensures forall i :: 0 <= i < |row| ==> r[i] == KindOf(row[i])
  {
    seq(|row|, i requires 0 <= i < |row| => KindOf(row[i]))
  }

  /** Squares of a row holding kind `k`. */
  function RowCount(row: seq<Piece>, k: (Team, PieceType)): nat {
    multiset(Kinds(row))[k]
  }

  /** Squares of a board holding kind `k`. */
  function BoardCount(b: Board, k: (Team, PieceType)): nat
    decreases |b|
  {
    if |b| == 0 then 0 else BoardCount(b[..|b| - 1], k) + RowCount(b[|b| - 1], k)
  }

  function Indicator(c: bool): nat {
    if c then 1 else 0
  }

  lemma RowCountPut(row: seq<Piece>, x: nat, piece: Piece, k: (Team, PieceType))
    requires x < |row|
    ensures RowCount(row[x := piece], k)
      == RowCount(row, k) - Indicator(KindOf(row[x]) == k) + Indicator(KindOf(piece) == k)
  {
    assert Kinds(row[x := piece]) == Kinds(row)[x := KindOf(piece)];
  }

  lemma {:induction false} BoardCountUpdate(b: Board, y: nat, row: seq<Piece>, k: (Team, PieceType))
    requires y < |b|
    ensures BoardCount(b[y := row], k) == BoardCount(b, k) - RowCount(b[y], k) + RowCount(row, k)
    decreases |b|
  {
    var b' := b[y := row];
    if y == |b| - 1 {
      assert b'[..|b'| - 1] == b[..|b| - 1];
    } else {
      assert b'[..|b'| - 1] == b[..|b| - 1][y := row];
      BoardCountUpdate(b[..|b| - 1], y, row, k);
    }
  }

  lemma PutCount(b: Board, p: Pos, piece: Piece, k: (Team, PieceType))
    requires Shaped(b) && InBounds(p)
    ensures BoardCount(Put(b, p, piece), k)
      == BoardCount(b, k) - Indicator(KindOf(At(b, p)) == k) + Indicator(KindOf(piece) == k)
  {
    RowCountPut(b[p.1], p.0, piece, k);
    BoardCountUpdate(b, p.1, b[p.1][p.0 := piece], k);
  }

  /** A move between two squares removes only what stood on the destination, and leaves one more free square. */
  lemma MovePieceCount(b: Board, oldPos: Pos, newPos: Pos, k: (Team, PieceType))
    requires Shaped(b) && InBounds(oldPos) && InBounds(newPos) && oldPos != newPos
    ensures BoardCount(MovePiece(b, oldPos, newPos), k)
      == BoardCount(b, k) - Indicator(KindOf(At(b, newPos)) == k) + Indicator(k == (FreeTeam, FreeType))
  {
    var from := At(b, oldPos);
    var to := At(b, newPos);
    var moved := Put(b, newPos, to.(typ := from.typ, team := from.team));
    PutCount(b, newPos, to.(typ := from.typ, team := from.team), k);
    PutCount(moved, oldPos, At(moved, oldPos).(typ := FreeType, team := FreeTeam, selected := false), k);
  }

  /** How many pieces of type `t` a lost-pieces map counts. */
  function Lost(m: map<PieceType, int>, t: PieceType): int {
    if t in m then m[t] else 0
  }

  /** The lost-pieces map of one team. */
  function LostOf(st: State, team: Team): map<PieceType, int> {
    if team == Black then st.lostBlacks else st.lostWhites
  }

  /**
   When a white or black piece moves onto a free square or captures a
   piece of the other team, every piece of either team is still on the
   board or counted as lost.
   */
  lemma PiecesAreConserved(st: State, h: Helpers, oldPos: Pos, newPos: Pos, team: Team, t: PieceType)
    requires Shaped(st.board) && InBounds(oldPos) && InBounds(newPos) && oldPos != newPos
    requires At(st.board, oldPos).team != FreeTeam
    requires At(st.board, newPos).team != At(st.board, oldPos).team
    requires team != FreeTeam
    ensures var r := MakeMove(st, h, oldPos, newPos);
      BoardCount(r.board, (team, t)) + Lost(LostOf(r, team), t)
        == BoardCount(st.board, (team, t)) + Lost(LostOf(st, team), t)
  {
    MovePieceCount(st.board, oldPos, newPos, (team, t));
  }

  /** In a valid state, a king's recorded position is the square it moved to. */
  lemma KingFollowsMove(st: State, h: Helpers, oldPos: Pos, newPos: Pos)
    requires Valid(st) && InBounds(oldPos) && InBounds(newPos)
    requires At(st.board, oldPos).typ == King
    ensures var r := MakeMove(st, h, oldPos, newPos);
      if At(st.board, oldPos).team == White then r.whiteKingPos == newPos else r.blackKingPos == newPos
  {
  }

  lemma PutAt(b: Board, p: Pos)
    requires Shaped(b) && InBounds(p)
    ensures Put(b, p, At(b, p)) == b
  {
    assert Put(b, p, At(b, p))[p.1] == b[p.1];
  }

  lemma PutSame(b: Board, p: Pos, x: Piece)
    requires Shaped(b) && InBounds(p)
    ensures Put(Put(b, p, x), p, At(b, p)) == b
  {
    assert Put(Put(b, p, x), p, At(b, p))[p.1] == b[p.1];
  }

  /**
   With nothing selected, selecting an unselected piece and then selecting
   it again gives back the state, with the candidate moves emptied.
   */
  lemma SelectTwice(st: State, h: Helpers, p: Pos)
    requires Valid(st) && InBounds(p)
    requires st.selectedPiece.None? && !At(st.board, p).selected
    requires !st.checked || At(st.board, p).typ == King
    ensures SelectPiece(SelectPiece(st, h, p), h, p) == st.(possibleMoves := [])
  {
    var piece := At(st.board, p);
    var once := SelectPiece(st, h, p);
    assert once.selectedPiece == Some(p);
    assert once.board == Put(st.board, p, piece.(selected := true));
    var twice := SelectPiece(once, h, p);
    var cleared := Put(once.board, p, piece);
    PutSame(st.board, p, piece.(selected := true));
    assert At(cleared, p).(selected := false) == At(cleared, p);
    PutAt(cleared, p);
  }

  /** The constructor's state is valid whenever `initBoard` returns an 8x8 board whose squares record their own coordinates. */
  lemma InitialValid(board: Board)
    requires Shaped(board) && Coherent(board)
    ensures Valid(Initial(board))
  {
  }

  /** The state after a sequence of clicks on in-bounds squares. */
  function Clicks(st: State, h: Helpers, ps: seq<Pos>): (r: State)
    requires Valid(st)
    requires forall i :: 0 <= i < |ps| ==> InBounds(ps[i])
    ensures Valid(r)
    ensures |ps| == 0 ==> r == st
    decreases |ps|
  {
    if |ps| == 0 then st else Clicks(HandleClick(st, h, ps[0]), h, ps[1..])
  }

  /**
   Every game played from the constructor's state stays valid: the board
   stays 8x8, every square keeps its own coordinates and the selection
   stays on the board, so every click `HandleClick` receives is allowed.
   */
  lemma PlayFromInitial(board: Board, h: Helpers, ps: seq<Pos>)
    requires Shaped(board) && Coherent(board)
    requires forall i :: 0 <= i < |ps| ==> InBounds(ps[i])
    ensures Valid(Clicks(Initial(board), h, ps))
  {
    InitialValid(board);
  }
}
