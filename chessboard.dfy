/**
 * The board controller: the drag state the pointer handlers keep, the reset
 * of a game, the theme switch, and the drawing passes of a redraw.
 */
module Chessboard {
  import opened Wrappers
  import opened Coords
  import opened ChessEngine
  import opened Appearance
  import opened Painting

  /** A pointer position in canvas pixels (`offsetX`, `offsetY`). */
  datatype Point = Point(x: real, y: real)

  /** The piece being dragged: its image key and where the pointer is. */
  datatype DraggedPiece = DraggedPiece(name: string, pos: Point)

  /** `moves(...).map(m => m.to)`: the destination of each move, in order. */
  function Destinations(ms: seq<Move>): (r: seq<string>)
    ensures |r| == |ms|
    ensures forall i :: 0 <= i < |ms| ==> r[i] == ms[i].to
  {
    if ms == [] then [] else [ms[0].to] + Destinations(ms[1..])
  }

  class ChessboardUI {
    const game: Game
    const squareSize: real
    var colors: Theme
    var draggedPiece: Option<DraggedPiece>
    var fromSquare: Option<string>
    var legalMoves: seq<string>
    var lastMove: Option<Move>

    /**
     * A drag is in progress exactly when there is an origin square, and the
     * highlighted destinations are only ever kept during a drag.
     */
    ghost predicate Valid()
      reads this
    {
      squareSize > 0.0 &&
      (draggedPiece.Some? <==> fromSquare.Some?) &&
      (draggedPiece.None? ==> legalMoves == [])
    }

    /** A controller over `game` on a canvas `boardSize` pixels wide, in the default palette. */
    constructor (game: Game, boardSize: nat)
      requires boardSize > 0
      ensures Valid()
      ensures this.game == game && squareSize == boardSize as real / 8.0
      ensures colors == GetBoardTheme("default")
      ensures draggedPiece == None && fromSquare == None && legalMoves == [] && lastMove == None
    {
      this.game := game;
      squareSize := boardSize as real / 8.0;
      colors := GetBoardTheme("default");
      draggedPiece := None;
      fromSquare := None;
      legalMoves := [];
      lastMove := None;
    }

    /** The square under the pointer holds a piece of the side to move. */
    predicate CanPickUp(x: real, y: real)
      reads this, game
      requires squareSize > 0.0
      ensures CanPickUp(x, y) ==>
        var piece := game.Get(GetSquareFromCoords(x, y, squareSize).square);
        piece.Some? && PieceName(piece.value)[0] == ColorCode(game.Turn())
    {
      var piece := game.Get(GetSquareFromCoords(x, y, squareSize).square);
      piece.Some? && piece.value.color == game.Turn()
    }

    /**
     * `handleMouseDown`: picking up a piece of the side to move starts (or
     * restarts) a drag from its square with its legal destinations
     * highlighted; on any other square nothing changes.
     */
    method HandleMouseDown(x: real, y: real)
      requires Valid()
      modifies this`draggedPiece, this`fromSquare, this`legalMoves
      ensures Valid()
      ensures !CanPickUp(x, y) ==> unchanged(this)
      ensures CanPickUp(x, y) ==>
        var square := GetSquareFromCoords(x, y, squareSize).square;
        && fromSquare == Some(square)
        && draggedPiece == Some(DraggedPiece(PieceName(game.Get(square).value), Point(x, y)))
        && legalMoves == Destinations(game.Moves(square))
    {
      var square := GetSquareFromCoords(x, y, squareSize).square;
      var piece := game.Get(square);
      if piece.Some? && piece.value.color == game.Turn() {
        fromSquare := Some(square);
        draggedPiece := Some(DraggedPiece(PieceName(piece.value), Point(x, y)));
        legalMoves := Destinations(game.Moves(square));
      }
    }

    /** `handleMouseMove`: during a drag only the pointer position moves; otherwise nothing happens. */
    method HandleMouseMove(x: real, y: real)
      requires Valid()
      modifies this`draggedPiece
      ensures Valid()
      ensures old(draggedPiece).None? ==> draggedPiece == None
      ensures old(draggedPiece).Some? ==>
        draggedPiece == Some(DraggedPiece(old(draggedPiece).value.name, Point(x, y)))
    {
      if draggedPiece.Some? {
        draggedPiece := Some(draggedPiece.value.(pos := Point(x, y)));
      }
    }

    /**
     * `handleMouseUp`: without a drag nothing happens. Otherwise the move
     * from the origin to the square under the pointer, promoting to a queen,
     * is put to the engine; an accepted move becomes the last move, a
     * rejected one leaves it, and in both cases the drag ends and the
     * highlights are cleared.
     */
    method HandleMouseUp(x: real, y: real)
      requires Valid()
      modifies this`draggedPiece, this`fromSquare, this`legalMoves, this`lastMove, game
      ensures Valid()
      ensures old(draggedPiece).None? ==> unchanged(this) && unchanged(game)
      ensures old(draggedPiece).Some? ==>
        var to := GetSquareFromCoords(x, y, squareSize).square;
        var m := game.rules.judge(old(game.history), old(fromSquare).value, to, 'q');
        && game.history == (if m.Some? then old(game.history) + [m.value] else old(game.history))
        && lastMove == (if m.Some? then Some(Move(m.value.from, m.value.to)) else old(lastMove))
        && draggedPiece == None && fromSquare == None && legalMoves == []
    {
      if draggedPiece.None? {
        return;
      }
      var toSquare := GetSquareFromCoords(x, y, squareSize).square;
      var move := game.MakeMove(fromSquare.value, toSquare, 'q');
      if move.Some? {
        lastMove := Some(Move(move.value.from, move.value.to));
      }
      draggedPiece := None;
      fromSquare := None;
      legalMoves := [];
    }

    /**
     * `resetGame`: the engine goes back to the starting position, the last
     * move and the highlights are cleared; a drag in progress is kept.
     */
    method ResetGame()
      requires Valid()
      modifies this`lastMove, this`legalMoves, game
      ensures Valid()
      ensures game.history == [] && lastMove == None && legalMoves == []
    {
      game.Reset();
      lastMove := None;
      legalMoves := [];
    }

    /** The theme selector: switch to the palette of the chosen name. */
    method SelectTheme(name: string)
      requires Valid()
      modifies this`colors
      ensures Valid()
      ensures colors == GetBoardTheme(name)
    {
      colors := GetBoardTheme(name);
    }

    /** The text of `updateStatus`, which reports the engine's verdict on the game. */
    function UpdateStatus(): (text: string)
      reads this, game
      ensures text == Describe(Judge(game.Turn(), game.IsCheckmate(), game.IsDraw(), game.IsCheck()))
    {
      StatusText(game.Turn(), game.IsCheckmate(), game.IsDraw(), game.IsCheck())
    }

    /**
     * `drawBoard`: the chequer row by row, then the highlighted destinations,
     * then the two squares of the last move. The topmost fill over every cell
     * has the colour `ExpectedColor` gives; `BoardLayers` lists all of them.
     */
    method DrawBoard() returns (ops: seq<Fill>)
      ensures ops == BoardPaint(colors, legalMoves, lastMove)
      ensures forall col, row :: 0 <= col < 8 && 0 <= row < 8 ==>
        Visible(ops, col, row) == Some(ExpectedColor(colors, legalMoves, lastMove, col, row))
    {
      ops := [];
      for row := 0 to 8
        invariant ops == BaseFills(colors, row)
      {
        for col := 0 to 8
          invariant ops == BaseFills(colors, row) + RowFills(colors, row, col)
        {
          var color := if (row + col) % 2 == 0 then colors.light else colors.dark;
          ops := ops + [Fill(col, Finite(row), color)];
        }
      }
      for i := 0 to |legalMoves|
        invariant ops == BaseFills(colors, 8) + OverlayFills(legalMoves[..i], colors.highlight)
      {
        var p := SquareToCoords(legalMoves[i]);
        assert legalMoves[..i + 1] == legalMoves[..i] + [legalMoves[i]];
        assert legalMoves[..i + 1][..i] == legalMoves[..i];
        ops := ops + [Fill(p.col, p.row, colors.highlight)];
      }
      assert legalMoves[..|legalMoves|] == legalMoves;
      if lastMove.Some? {
        var from := SquareToCoords(lastMove.value.from);
        var to := SquareToCoords(lastMove.value.to);
        ops := ops + [Fill(from.col, from.row, colors.lastmove), Fill(to.col, to.row, colors.lastmove)];
      }
      assert ops == BoardPaint(colors, legalMoves, lastMove);
      forall col, row | 0 <= col < 8 && 0 <= row < 8
        ensures Visible(ops, col, row) == Some(ExpectedColor(colors, legalMoves, lastMove, col, row))
      {
        BoardPaintVisible(colors, legalMoves, lastMove, col, row);
      }
    }

    /**
     * The piece pass in terms of `get`: cell (col, row) shows the image `name`
     * in place exactly when its square holds a piece with that image key and
     * the square is not the origin of a drag in progress.
     */
    lemma PiecesFollowGet(name: string, col: int, row: int)
      requires 0 <= col < 8 && 0 <= row < 8
      ensures var square := SquareName(col, row);
        DrawnAt(game.Board(), Skipped(), name, col, row) <==>
          game.Get(square).Some? && Skipped() != Some(square) && name == PieceName(game.Get(square).value)
    {
      game.BoardAgreesWithGet(row, col);
    }

    /** The square whose piece is not drawn in place: the origin of a drag in progress. */
    function Skipped(): (skip: Option<string>)
      reads this
      ensures skip == None || skip == fromSquare
      ensures skip.Some? <==> draggedPiece.Some? && fromSquare.Some?
    {
      if draggedPiece.Some? then fromSquare else None
    }

    /**
     * `drawPieces`: every piece of the engine's board in its cell, except the
     * one on the origin of a drag in progress, then the dragged piece
     * centred on the pointer.
     */
    method DrawPieces() returns (sprites: seq<Sprite>)
      ensures sprites == PlacedSprites(game.Board(), Skipped(), 8) +
        (if draggedPiece.Some? then
           [Floating(draggedPiece.value.name,
                     draggedPiece.value.pos.x - squareSize / 2.0,
                     draggedPiece.value.pos.y - squareSize / 2.0)]
         else [])
      ensures forall name, col, row :: 0 <= col < 8 && 0 <= row < 8 ==>
        (OnSquare(name, col, row) in sprites <==> DrawnAt(game.Board(), Skipped(), name, col, row))
      ensures draggedPiece.Some? <==> (|sprites| > 0 && sprites[|sprites| - 1].Floating?)
    {
      var board := game.Board();
      var skip := Skipped();
      sprites := [];
      for row := 0 to 8
        invariant sprites == PlacedSprites(board, skip, row)
      {
        for col := 0 to 8
          invariant sprites == PlacedSprites(board, skip, row) + RowSprites(board, skip, row, col)
        {
          var cell := board[row][col];
          if cell.Some? {
            if draggedPiece.Some? && fromSquare == Some(cell.value.square) {
              continue;
            }
            sprites := sprites + [OnSquare(PieceName(cell.value.piece), col, row)];
          }
        }
      }
      var floating := [];
      if draggedPiece.Some? {
        var d := draggedPiece.value;
        floating := [Floating(d.name, d.pos.x - squareSize / 2.0, d.pos.y - squareSize / 2.0)];
      }
      PiecePass(board, skip, floating);
      if draggedPiece.None? && |sprites| > 0 {
        assert sprites[|sprites| - 1] in sprites;
      }
      sprites := sprites + floating;
    }
  }
}
