/**
 The move bookkeeping of the `Chess` component (components/chess/Chess.tsx):
 an 8x8 board of squares, the selected square and its candidate moves, the
 side to move, the captured-piece counts and both kings' positions. Move
 generation, check detection and the move lookup live in helper modules
 that are not part of this model; they are passed in as `Helpers`.
 */
module Chess {
  import opened Wrappers

  datatype Team = White | Black | FreeTeam        // "white" | "black" | "free"
  datatype PieceType = Rook | Knight | Bishop | Queen | King | Pawn | FreeType

  /** `[x, y]`: the column, then the row. */
  type Pos = (int, int)

  /** A square; an empty one has type and team "free". */
  datatype Piece = Piece(typ: PieceType, team: Team, position: Pos, selected: bool)

  /** Rows of squares, indexed `board[y][x]`. */
  type Board = seq<seq<Piece>>

  /** `getPossibleMoves`, `hasChecked` and `findMoveInMoves`, whose definitions are not modelled. */
  datatype Helpers = Helpers(
    getPossibleMoves: (Piece, Board) -> seq<Pos>,
    hasChecked: (Team, Pos, Board) -> bool,
    findMoveInMoves: (Pos, seq<Pos>) -> bool)

  datatype State = State(
    board: Board,
    selectedPiece: Option<Pos>,
    possibleMoves: seq<Pos>,
    turn: Team,
    lostBlacks: map<PieceType, int>,
    lostWhites: map<PieceType, int>,
    checked: bool,
    whiteKingPos: Pos,
    blackKingPos: Pos)

  predicate InBounds(p: Pos) {
    0 <= p.0 < 8 && 0 <= p.1 < 8
  }

  predicate Shaped(b: Board) {
    |b| == 8 && forall y :: 0 <= y < 8 ==> |b[y]| == 8
  }

  function At(b: Board, p: Pos): Piece
    requires Shaped(b) && InBounds(p)
  {
    b[p.1][p.0]
  }

  /** Every square records its own coordinates. */
  ghost predicate Coherent(b: Board)
    requires Shaped(b)
  {
    forall q :: InBounds(q) ==> At(b, q).position == q
  }

  /** The states the component can be in: a shaped, coherent board and a selection on it. */
  ghost predicate Valid(st: State) {
    && Shaped(st.board)
    && Coherent(st.board)
    && (st.selectedPiece.Some? ==> InBounds(st.selectedPiece.value))
  }

  /** The board with square `p` replaced. */
  function Put(b: Board, p: Pos, piece: Piece): (r: Board)
    requires Shaped(b) && InBounds(p)
    ensures Shaped(r)
    ensures At(r, p) == piece
    ensures forall q :: InBounds(q) && q != p ==> At(r, q) == At(b, q)
  {
    b[p.1 := b[p.1][p.0 := piece]]
  }

  /** The state set up by the constructor, around the board `initBoard` returns. */
  function Initial(board: Board): (r: State)
    ensures r.turn == White && r.selectedPiece == None && r.possibleMoves == [] && !r.checked
    ensures r.board == board
    ensures r.lostBlacks == map[] && r.lostWhites == map[]
    ensures r.whiteKingPos == (4, 7) && r.blackKingPos == (4, 0)
  {
    State(board, None, [], White, map[], map[], false, (4, 7), (4, 0))
  }

  /** A lost-pieces count: 1 for a piece type seen first, one more otherwise. */
  function Bump(m: map<PieceType, int>, t: PieceType): (r: map<PieceType, int>)
    ensures r.Keys == m.Keys + {t}
    ensures r[t] == (if t in m then m[t] else 0) + 1
    ensures forall u :: u in m && u != t ==> r[u] == m[u]
  {
    if t in m then m[t := m[t] + 1] else m[t := 1]
  }

  /**
   The square updates of `makeMove`, made in place one after the other: the
   destination takes the mover's type and team, then the source becomes a
   free, unselected square. A move onto its own square therefore frees it.
   */
  function MovePiece(b: Board, oldPos: Pos, newPos: Pos): (r: Board)
    requires Shaped(b) && InBounds(oldPos) && InBounds(newPos)
    ensures Shaped(r)
    ensures oldPos != newPos ==>
      At(r, newPos) == At(b, newPos).(typ := At(b, oldPos).typ, team := At(b, oldPos).team)
    ensures At(r, oldPos) == At(b, oldPos).(typ := FreeType, team := FreeTeam, selected := false)
    ensures forall q :: InBounds(q) && q != oldPos && q != newPos ==> At(r, q) == At(b, q)
  {
    var from := At(b, oldPos);
    var to := At(b, newPos);
    var moved := Put(b, newPos, to.(typ := from.typ, team := from.team));
    Put(moved, oldPos, At(moved, oldPos).(typ := FreeType, team := FreeTeam, selected := false))
  }

  /**
   `makeMove`: the pieces move, a captured piece is counted against its
   team, a king move updates that king's position, the selection is
   dropped, the turn passes and `checked` is recomputed for the side to
   move on the new board.
   */
  function MakeMove(st: State, h: Helpers, oldPos: Pos, newPos: Pos): (r: State)
    requires Shaped(st.board) && InBounds(oldPos) && InBounds(newPos)
    ensures r.board == MovePiece(st.board, oldPos, newPos)
    ensures st.turn == White ==> r.turn == Black
    ensures st.turn != White ==> r.turn == White
    ensures var from := At(st.board, oldPos); var to := At(st.board, newPos);
      if from.team == White && to.team == Black then
        r.lostBlacks == Bump(st.lostBlacks, to.typ) && r.lostWhites == st.lostWhites
      else if from.team == Black && to.team == White then
        r.lostWhites == Bump(st.lostWhites, to.typ) && r.lostBlacks == st.lostBlacks
      else
        r.lostBlacks == st.lostBlacks && r.lostWhites == st.lostWhites
    ensures var from := At(st.board, oldPos); var to := At(st.board, newPos);
      && (from.typ == King && from.team == White ==> r.whiteKingPos == to.position && r.blackKingPos == st.blackKingPos)
      && (from.typ == King && from.team != White ==> r.blackKingPos == to.position && r.whiteKingPos == st.whiteKingPos)
      && (from.typ != King ==> r.whiteKingPos == st.whiteKingPos && r.blackKingPos == st.blackKingPos)
    ensures r.selectedPiece == None && r.possibleMoves == []
    ensures r.checked == if r.turn == White then h.hasChecked(Black, r.whiteKingPos, r.board)
      else h.hasChecked(White, r.blackKingPos, r.board)
  {
    var from := At(st.board, oldPos);
    var to := At(st.board, newPos);
    var lostBlacks := if to.team == Black && from.team == White then Bump(st.lostBlacks, to.typ) else st.lostBlacks;
    var lostWhites :=
      if to.team == Black && from.team == White then st.lostWhites
      else if to.team == White && from.team == Black then Bump(st.lostWhites, to.typ)
      else st.lostWhites;
    var whiteKing := if from.typ == King && from.team == White then to.position else st.whiteKingPos;
    var blackKing := if from.typ == King && from.team != White then to.position else st.blackKingPos;
    var board := MovePiece(st.board, oldPos, newPos);
    var next := if st.turn == White then Black else White;
    var whiteIsChecked := h.hasChecked(Black, whiteKing, board);
    var blackIsChecked := h.hasChecked(White, blackKing, board);
    State(board, None, [], next, lostBlacks, lostWhites,
      if next == White then whiteIsChecked else blackIsChecked, whiteKing, blackKing)
  }

  /**
   `selectPiece`: ignored while in check unless the piece is a king;
   otherwise the piece's `selected` flag flips, the previously selected
   square is unselected, and a newly selected piece gets its candidate
   moves.
   */
  function SelectPiece(st: State, h: Helpers, p: Pos): (r: State)
    requires Shaped(st.board) && InBounds(p)
    requires st.selectedPiece.Some? ==> InBounds(st.selectedPiece.value)
    ensures var piece := At(st.board, p);
      st.checked && piece.typ != King ==> r == st
    ensures var piece := At(st.board, p);
      !(st.checked && piece.typ != King) ==>
        && r == st.(board := r.board, selectedPiece := r.selectedPiece, possibleMoves := r.possibleMoves)
        && Shaped(r.board)
        && r.selectedPiece == (if piece.selected then None else Some(piece.position))
        && (piece.selected ==> r.possibleMoves == [])
        && At(r.board, p) == piece.(selected := !piece.selected && st.selectedPiece != Some(p))
        && (!piece.selected ==>
              r.possibleMoves == h.getPossibleMoves(piece.(selected := true), Put(st.board, p, piece.(selected := true))))
        && (st.selectedPiece.Some? ==> !At(r.board, st.selectedPiece.value).selected)
        && (forall q :: InBounds(q) && q != p ==>
              At(r.board, q) == if st.selectedPiece == Some(q) then At(st.board, q).(selected := false) else At(st.board, q))
    ensures forall q :: InBounds(q) ==> At(r.board, q).position == At(st.board, q).position
  {
    var piece := At(st.board, p);
    if st.checked && piece.typ != King then st
    else
      var picked := !piece.selected;
      var board := Put(st.board, p, piece.(selected := picked));
      var moves := if picked then h.getPossibleMoves(piece.(selected := true), board) else [];
      var board' := match st.selectedPiece
        case None => board
        case Some(prev) => Put(board, prev, At(board, prev).(selected := false));
      st.(board := board', possibleMoves := moves, selectedPiece := if picked then Some(piece.position) else None)
  }

  /**
   `handleClick`: a square among the candidate moves receives the selected
   piece; otherwise a piece of the side to move is (de)selected. When the
   helper reports a candidate move but nothing is selected, `makeMove`
   is called with `null` and throws before changing anything.
   */
  function HandleClick(st: State, h: Helpers, p: Pos): (r: State)
    requires Valid(st) && InBounds(p)
    ensures Valid(r)
    ensures var clicked := At(st.board, p);
      if h.findMoveInMoves(p, st.possibleMoves) then
        r == (if st.selectedPiece.Some? then MakeMove(st, h, st.selectedPiece.value, p) else st)
      else
        r == (if clicked.team == st.turn then SelectPiece(st, h, p) else st)
  {
    var clicked := At(st.board, p);
    if h.findMoveInMoves(clicked.position, st.possibleMoves) then
      match st.selectedPiece
      case None => st
      case Some(from) => MakeMove(st, h, from, clicked.position)
    else if clicked.team == st.turn then SelectPiece(st, h, p)
    else st
  }
}
