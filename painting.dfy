/**
 * What a redraw puts on the canvas, recorded as a list of drawing calls:
 * `drawBoard` issues square fills, `drawPieces` issues piece images. For
 * each cell of the grid, `Visible` is the colour of the topmost fill over it
 * and `Layers` the colours of all the fills over it, bottom to top.
 */
module Painting {
  import opened Wrappers
  import opened Coords
  import opened ChessEngine
  import opened Appearance

  /** One `fillRect(col * S, row * S, S, S)` in `color`; a NaN row paints nothing. */
  datatype Fill = Fill(col: int, row: JsNumber, color: string)

  predicate Covers(f: Fill, col: int, row: int)
  {
    f.col == col && f.row == Finite(row)
  }

  /** The fill of the square named `square`, at the cell `squareToCoords` gives. */
  function SquareFill(square: string, color: string): Fill
  {
    var p := SquareToCoords(square);
    Fill(p.col, p.row, color)
  }

  /** The colour of the topmost fill over cell (col, row) after `ops` are painted in order. */
  function Visible(ops: seq<Fill>, col: int, row: int): Option<string>
  {
    if ops == [] then None
    else if Covers(ops[|ops| - 1], col, row) then Some(ops[|ops| - 1].color)
    else Visible(ops[..|ops| - 1], col, row)
  }

  /** The chequer fill of cell (col, row). */
  function BaseFill(t: Theme, row: int, col: int): Fill
  {
    Fill(col, Finite(row), SquareColor(t, row, col))
  }

  /** The chequer fills of the first n cells of a row. */
  function RowFills(t: Theme, row: int, n: nat): (r: seq<Fill>)
    ensures |r| == n
  {
    if n == 0 then [] else RowFills(t, row, n - 1) + [BaseFill(t, row, n - 1)]
  }

  /** The chequer fills of the first n rows, top to bottom. */
  function BaseFills(t: Theme, n: nat): (r: seq<Fill>)
    ensures |r| == 8 * n
  {
    if n == 0 then [] else BaseFills(t, n - 1) + RowFills(t, n - 1, 8)
  }

  /** The overlay fills for a list of squares, in list order. */
  function OverlayFills(squares: seq<string>, tint: string): (r: seq<Fill>)
    ensures |r| == |squares|
    ensures forall i :: 0 <= i < |squares| ==> r[i] == SquareFill(squares[i], tint)
  {
    if squares == [] then []
    else OverlayFills(squares[..|squares| - 1], tint) + [SquareFill(squares[|squares| - 1], tint)]
  }

  /** The two fills of the last move, origin first; none before any move. */
  function LastMoveFills(last: Option<Move>, tint: string): (r: seq<Fill>)
    ensures |r| == if last.Some? then 2 else 0
    ensures forall f :: f in r ==> f.color == tint
  {
    if last.Some? then [SquareFill(last.value.from, tint), SquareFill(last.value.to, tint)] else []
  }

  /** Everything `drawBoard` paints, in order: chequer, legal-move tint, last-move tint. */
  function BoardPaint(t: Theme, legal: seq<string>, last: Option<Move>): (ops: seq<Fill>)
    ensures |ops| == 64 + |legal| + (if last.Some? then 2 else 0)
  {
    BaseFills(t, 8) + OverlayFills(legal, t.highlight) + LastMoveFills(last, t.lastmove)
  }

  /** `square` is placed on cell (col, row) by `squareToCoords`. */
  predicate Marks(square: string, col: int, row: int)
  {
    SquareToCoords(square) == GridPos(col, Finite(row))
  }

  /**
   * The colour of the topmost fill a cell should get: the last-move tint on
   * the two squares of the last move, else the highlight tint on a legal
   * destination, else the chequer colour.
   */
  function ExpectedColor(t: Theme, legal: seq<string>, last: Option<Move>, col: int, row: int): string
  {
    if last.Some? && (Marks(last.value.from, col, row) || Marks(last.value.to, col, row)) then t.lastmove
    else if exists i :: 0 <= i < |legal| && Marks(legal[i], col, row) then t.highlight
    else SquareColor(t, row, col)
  }

  /** The topmost fill over a cell is the last one painted there. */
  lemma {:induction false} VisibleAppend(a: seq<Fill>, b: seq<Fill>, col: int, row: int)
    ensures Visible(a + b, col, row) == if Visible(b, col, row).Some? then Visible(b, col, row) else Visible(a, col, row)
    decreases |b|
  {
    if b == [] {
      assert a + b == a;
    } else {
      var ab := a + b;
      var b' := b[..|b| - 1];
      assert ab[..|ab| - 1] == a + b';
      assert ab[|ab| - 1] == b[|b| - 1];
      VisibleAppend(a, b', col, row);
    }
  }

  /** A partial row of the chequer pass fills exactly the cells it has reached. */
  lemma {:induction false} VisibleRow(t: Theme, r: int, n: nat, col: int, row: int)
    requires n <= 8 && 0 <= col < 8
    ensures Visible(RowFills(t, r, n), col, row) == if r == row && col < n then Some(SquareColor(t, row, col)) else None
  {
    if n > 0 {
      var ops := RowFills(t, r, n);
      assert ops[..|ops| - 1] == RowFills(t, r, n - 1);
      VisibleRow(t, r, n - 1, col, row);
    }
  }

  /** After the first n rows of the chequer pass, the cells of those rows are topped by their chequer colour. */
  lemma {:induction false} VisibleBase(t: Theme, n: nat, col: int, row: int)
    requires n <= 8 && 0 <= col < 8 && 0 <= row < 8
    ensures Visible(BaseFills(t, n), col, row) == if row < n then Some(SquareColor(t, row, col)) else None
  {
    if n > 0 {
      assert BaseFills(t, n) == BaseFills(t, n - 1) + RowFills(t, n - 1, 8);
      VisibleThenRow(BaseFills(t, n - 1), t, n - 1, col, row);
      VisibleBase(t, n - 1, col, row);
    }
  }

  /** A full row of the chequer pass, painted after `before`, tops the cells of that row with their chequer colour. */
  lemma VisibleThenRow(before: seq<Fill>, t: Theme, r: int, col: int, row: int)
    requires 0 <= col < 8
    ensures Visible(before + RowFills(t, r, 8), col, row) ==
      if row == r then Some(SquareColor(t, row, col)) else Visible(before, col, row)
  {
    VisibleAppend(before, RowFills(t, r, 8), col, row);
    VisibleRow(t, r, 8, col, row);
  }

  /** The last-move pass tints exactly the cells of the move's two squares. */
  lemma VisibleLastMove(last: Option<Move>, tint: string, col: int, row: int)
    ensures Visible(LastMoveFills(last, tint), col, row) ==
      if last.Some? && (Marks(last.value.from, col, row) || Marks(last.value.to, col, row)) then Some(tint) else None
  {
    if last.Some? {
      var a := SquareFill(last.value.from, tint);
      var b := SquareFill(last.value.to, tint);
      assert [a, b][..1] == [a];
      assert [a][..0] == [];
      assert Visible([a], col, row) == if Covers(a, col, row) then Some(tint) else None;
    }
  }

  /** An overlay pass leaves its tint exactly on the cells some listed square marks. */
  lemma {:induction false} VisibleOverlay(squares: seq<string>, tint: string, col: int, row: int)
    ensures Visible(OverlayFills(squares, tint), col, row) ==
      if exists i :: 0 <= i < |squares| && Marks(squares[i], col, row) then Some(tint) else None
  {
    if squares != [] {
      var ops := OverlayFills(squares, tint);
      var init := squares[..|squares| - 1];
      assert ops[..|ops| - 1] == OverlayFills(init, tint);
      VisibleOverlay(init, tint, col, row);
      if exists i :: 0 <= i < |squares| && Marks(squares[i], col, row) {
        var i :| 0 <= i < |squares| && Marks(squares[i], col, row);
        if i < |init| {
          assert init[i] == squares[i];
        }
      } else {
        forall i | 0 <= i < |init| ensures !Marks(init[i], col, row) {
          assert init[i] == squares[i];
        }
      }
    }
  }

  /**
   * The topmost fill over every cell of the board after a redraw has the
   * colour `ExpectedColor` gives: the last-move tint is laid over the
   * legal-move tint, which is laid over the chequer.
   */
  lemma BoardPaintVisible(t: Theme, legal: seq<string>, last: Option<Move>, col: int, row: int)
    requires 0 <= col < 8 && 0 <= row < 8
    ensures Visible(BoardPaint(t, legal, last), col, row) == Some(ExpectedColor(t, legal, last, col, row))
  {
    var base := BaseFills(t, 8);
    var over := OverlayFills(legal, t.highlight);
    var lm := LastMoveFills(last, t.lastmove);
    VisibleAppend(base + over, lm, col, row);
    VisibleAppend(base, over, col, row);
    VisibleBase(t, 8, col, row);
    VisibleOverlay(legal, t.highlight, col, row);
    VisibleLastMove(last, t.lastmove, col, row);
  }

  /** On well-formed squares, a square marks a cell exactly when it is that cell's name. */
  lemma MarksIff(s: string, col: int, row: int)
    requires IsSquare(s) && 0 <= col < 8 && 0 <= row < 8
    ensures Marks(s, col, row) <==> s == SquareName(col, row)
  {
    var c, r := SquareIsNamed(s);
    SquareNameCoords(c, r);
    SquareNameCoords(col, row);
  }

  /**
   * The topmost fill in terms of square names, when the engine reports
   * well-formed squares: the last move's two squares are topped by the
   * last-move tint, other legal destinations by the highlight tint, the
   * rest by the chequer colour.
   */
  lemma PaintedSquareColor(t: Theme, legal: seq<string>, last: Option<Move>, col: int, row: int)
    requires 0 <= col < 8 && 0 <= row < 8
    requires forall i :: 0 <= i < |legal| ==> IsSquare(legal[i])
    requires last.Some? ==> IsSquare(last.value.from) && IsSquare(last.value.to)
    ensures Visible(BoardPaint(t, legal, last), col, row) == Some(
      if last.Some? && SquareName(col, row) in {last.value.from, last.value.to} then t.lastmove
      else if SquareName(col, row) in legal then t.highlight
      else SquareColor(t, row, col))
  {
    BoardPaintVisible(t, legal, last, col, row);
    var name := SquareName(col, row);
    if last.Some? {
      MarksIff(last.value.from, col, row);
      MarksIff(last.value.to, col, row);
    }
    forall i | 0 <= i < |legal| ensures Marks(legal[i], col, row) <==> legal[i] == name {
      MarksIff(legal[i], col, row);
    }
  }

  // ---------------------------------------------------------------------------
  // Layers
  // ---------------------------------------------------------------------------

  /**
   * The colours of every fill that covers cell (col, row), bottom to top.
   * The highlight and last-move tints are translucent, so the canvas shows
   * these layers blended in order; `Visible` is only the topmost of them.
   */
  function Layers(ops: seq<Fill>, col: int, row: int): (l: seq<string>)
    ensures |l| <= |ops|
  {
    if ops == [] then []
    else
      var top := ops[|ops| - 1];
      Layers(ops[..|ops| - 1], col, row) + (if Covers(top, col, row) then [top.color] else [])
  }

  /** The topmost layer over a cell is the colour `Visible` gives, and a cell without layers is unpainted. */
  lemma {:induction false} TopLayer(ops: seq<Fill>, col: int, row: int)
    ensures Layers(ops, col, row) == [] <==> Visible(ops, col, row) == None
    ensures Layers(ops, col, row) != [] ==>
      Visible(ops, col, row) == Some(Layers(ops, col, row)[|Layers(ops, col, row)| - 1])
  {
    if ops != [] {
      TopLayer(ops[..|ops| - 1], col, row);
    }
  }

  /** The number of listed squares that land on cell (col, row). */
  function MarkCount(squares: seq<string>, col: int, row: int): (n: nat)
    ensures n <= |squares|
    ensures n == 0 <==> !exists i :: 0 <= i < |squares| && Marks(squares[i], col, row)
  {
    if squares == [] then 0
    else
      var init := squares[..|squares| - 1];
      assert forall i :: 0 <= i < |init| ==> init[i] == squares[i];
      MarkCount(init, col, row) + (if Marks(squares[|squares| - 1], col, row) then 1 else 0)
  }

  /** How many of the last move's two squares land on cell (col, row). */
  function MoveMarks(last: Option<Move>, col: int, row: int): (n: nat)
    ensures n <= 2
    ensures n == 0 <==> !(last.Some? && (Marks(last.value.from, col, row) || Marks(last.value.to, col, row)))
  {
    if last.None? then 0
    else (if Marks(last.value.from, col, row) then 1 else 0) + (if Marks(last.value.to, col, row) then 1 else 0)
  }

  /** n layers of one colour. */
  function Repeat(c: string, n: nat): (r: seq<string>)
    ensures |r| == n
    ensures forall i :: 0 <= i < n ==> r[i] == c
  {
    if n == 0 then [] else Repeat(c, n - 1) + [c]
  }

  /** Painting `b` after `a` stacks the layers of `b` on those of `a`. */
  lemma {:induction false} LayersAppend(a: seq<Fill>, b: seq<Fill>, col: int, row: int)
    ensures Layers(a + b, col, row) == Layers(a, col, row) + Layers(b, col, row)
    decreases |b|
  {
    if b == [] {
      assert a + b == a;
    } else {
      var ab := a + b;
      var b' := b[..|b| - 1];
      assert ab[..|ab| - 1] == a + b';
      assert ab[|ab| - 1] == b[|b| - 1];
      LayersAppend(a, b', col, row);
    }
  }

  /** A partial row of the chequer pass lays one chequer layer on each cell it has reached. */
  lemma {:induction false} LayersRow(t: Theme, r: int, n: nat, col: int, row: int)
    requires n <= 8 && 0 <= col < 8
    ensures Layers(RowFills(t, r, n), col, row) == if r == row && col < n then [SquareColor(t, row, col)] else []
  {
    if n > 0 {
      var ops := RowFills(t, r, n);
      assert ops[..|ops| - 1] == RowFills(t, r, n - 1);
      LayersRow(t, r, n - 1, col, row);
    }
  }

  /** The first n rows of the chequer pass lay exactly one chequer layer on each of their cells. */
  lemma {:induction false} LayersBase(t: Theme, n: nat, col: int, row: int)
    requires n <= 8 && 0 <= col < 8 && 0 <= row < 8
    ensures Layers(BaseFills(t, n), col, row) == if row < n then [SquareColor(t, row, col)] else []
  {
    if n == 0 {
      assert BaseFills(t, n) == [];
    } else {
      LayersBaseStep(t, n, col, row);
      LayersBase(t, n - 1, col, row);
      var lb, c := Layers(BaseFills(t, n - 1), col, row), SquareColor(t, row, col);
      if row < n - 1 {
        assert lb + [] == [c];
      } else if row == n - 1 {
        assert [] + [c] == [c];
      } else {
        assert lb + [] == [];
      }
    }
  }

  /** Row n - 1 of the chequer pass adds one layer to the cells of that row and none elsewhere. */
  lemma LayersBaseStep(t: Theme, n: nat, col: int, row: int)
    requires 0 < n <= 8 && 0 <= col < 8
    ensures Layers(BaseFills(t, n), col, row) ==
      Layers(BaseFills(t, n - 1), col, row) + (if row == n - 1 then [SquareColor(t, row, col)] else [])
  {
    assert BaseFills(t, n) == BaseFills(t, n - 1) + RowFills(t, n - 1, 8);
    LayersThenRow(BaseFills(t, n - 1), t, n - 1, col, row);
  }

  /** A full row of the chequer pass, painted after `before`, adds one layer on the cells of that row. */
  lemma LayersThenRow(before: seq<Fill>, t: Theme, r: int, col: int, row: int)
    requires 0 <= col < 8
    ensures Layers(before + RowFills(t, r, 8), col, row) ==
      Layers(before, col, row) + (if row == r then [SquareColor(t, row, col)] else [])
  {
    LayersAppend(before, RowFills(t, r, 8), col, row);
    LayersRow(t, r, 8, col, row);
  }

  /** An overlay pass lays one tint layer per listed square that lands on the cell, repeats included. */
  lemma {:induction false} LayersOverlay(squares: seq<string>, tint: string, col: int, row: int)
    ensures Layers(OverlayFills(squares, tint), col, row) == Repeat(tint, MarkCount(squares, col, row))
  {
    if squares != [] {
      var ops := OverlayFills(squares, tint);
      var init := squares[..|squares| - 1];
      assert ops[..|ops| - 1] == OverlayFills(init, tint);
      LayersOverlay(init, tint, col, row);
    }
  }

  /** The last-move pass lays one tint layer for each of the move's squares on the cell. */
  lemma LayersLastMove(last: Option<Move>, tint: string, col: int, row: int)
    ensures Layers(LastMoveFills(last, tint), col, row) == Repeat(tint, MoveMarks(last, col, row))
  {
    if last.Some? {
      var a := SquareFill(last.value.from, tint);
      var b := SquareFill(last.value.to, tint);
      assert [a, b][..1] == [a];
      assert [a][..0] == [];
      assert Layers([a], col, row) == if Covers(a, col, row) then [tint] else [];
    }
  }

  /**
   * What the canvas blends on each cell after a full board pass: the
   * chequer colour, then one highlight layer per legal-move entry naming the
   * cell, then one last-move layer per square of the last move on the cell.
   */
  lemma BoardLayers(t: Theme, legal: seq<string>, last: Option<Move>, col: int, row: int)
    requires 0 <= col < 8 && 0 <= row < 8
    ensures Layers(BoardPaint(t, legal, last), col, row) ==
      [SquareColor(t, row, col)] + Repeat(t.highlight, MarkCount(legal, col, row)) + Repeat(t.lastmove, MoveMarks(last, col, row))
  {
    var base := BaseFills(t, 8);
    var over := OverlayFills(legal, t.highlight);
    var lm := LastMoveFills(last, t.lastmove);
    LayersAppend(base + over, lm, col, row);
    LayersAppend(base, over, col, row);
    LayersBase(t, 8, col, row);
    LayersOverlay(legal, t.highlight, col, row);
    LayersLastMove(last, t.lastmove, col, row);
  }

  // ---------------------------------------------------------------------------
  // Pieces
  // ---------------------------------------------------------------------------

  /** A `drawImage` call: a piece image in a grid cell, or floating at a pixel position. */
  datatype Sprite =
    | OnSquare(name: string, col: int, row: int)
    | Floating(name: string, left: real, top: real)

  /** The image key of a piece: its colour letter followed by its type letter ("wp", "bk"). */
  function PieceName(p: Piece): (key: string)
    ensures |key| == 2
  {
    [ColorCode(p.color), TypeCode(p.kind)]
  }

  /** An image key is a colour letter, 'w' exactly for White, followed by a type letter. */
  lemma PieceNameFormat(p: Piece)
    ensures PieceName(p)[0] in "wb" && PieceName(p)[1] in "pnbrqk"
    ensures PieceName(p)[0] == 'w' <==> p.color == White
  {
  }

  /** Different pieces have different image keys. */
  lemma PieceNameInjective(p: Piece, q: Piece)
    requires PieceName(p) == PieceName(q)
    ensures p == q
  {
    assert PieceName(p)[0] == PieceName(q)[0];
    assert PieceName(p)[1] == PieceName(q)[1];
  }

  predicate IsGrid(board: seq<seq<Option<Placed>>>)
  {
    |board| == 8 && forall row :: 0 <= row < 8 ==> |board[row]| == 8
  }

  /** What cell (col, row) contributes: its piece's image, unless the piece stands on `skip`. */
  function CellSprites(board: seq<seq<Option<Placed>>>, skip: Option<string>, row: int, col: int): seq<Sprite>
    requires IsGrid(board) && 0 <= row < 8 && 0 <= col < 8
  {
    var cell := board[row][col];
    if cell.Some? && skip != Some(cell.value.square) then [OnSquare(PieceName(cell.value.piece), col, row)] else []
  }

  /** The in-place images of the first n cells of a row. */
  function RowSprites(board: seq<seq<Option<Placed>>>, skip: Option<string>, row: int, n: nat): seq<Sprite>
    requires IsGrid(board) && 0 <= row < 8 && n <= 8
  {
    if n == 0 then [] else RowSprites(board, skip, row, n - 1) + CellSprites(board, skip, row, n - 1)
  }

  /** The in-place images of the first n rows, top to bottom. */
  function PlacedSprites(board: seq<seq<Option<Placed>>>, skip: Option<string>, n: nat): seq<Sprite>
    requires IsGrid(board) && n <= 8
  {
    if n == 0 then [] else PlacedSprites(board, skip, n - 1) + RowSprites(board, skip, n - 1, 8)
  }

  /** The condition under which cell (col, row) shows the image `name` in place. */
  predicate DrawnAt(board: seq<seq<Option<Placed>>>, skip: Option<string>, name: string, col: int, row: int)
    requires IsGrid(board) && 0 <= row < 8 && 0 <= col < 8
  {
    var cell := board[row][col];
    cell.Some? && skip != Some(cell.value.square) && name == PieceName(cell.value.piece)
  }

  lemma {:induction false} DrawnInRow(board: seq<seq<Option<Placed>>>, skip: Option<string>, r: int, n: nat,
                                      name: string, col: int, row: int)
    requires IsGrid(board) && 0 <= r < 8 && n <= 8 && 0 <= col < 8 && 0 <= row < 8
    ensures OnSquare(name, col, row) in RowSprites(board, skip, r, n) <==>
      (r == row && col < n && DrawnAt(board, skip, name, col, row))
  {
    if n > 0 {
      DrawnInRow(board, skip, r, n - 1, name, col, row);
    }
  }

  /**
   * A piece image is drawn in cell (col, row) exactly when that cell holds a
   * piece that is not on the skipped square, and the image is that piece's.
   */
  lemma {:induction false} DrawnInPlace(board: seq<seq<Option<Placed>>>, skip: Option<string>, n: nat,
                                        name: string, col: int, row: int)
    requires IsGrid(board) && n <= 8 && 0 <= col < 8 && 0 <= row < 8
    ensures OnSquare(name, col, row) in PlacedSprites(board, skip, n) <==>
      (row < n && DrawnAt(board, skip, name, col, row))
  {
    if n > 0 {
      DrawnInPlace(board, skip, n - 1, name, col, row);
      DrawnInRow(board, skip, n - 1, 8, name, col, row);
    }
  }

  lemma {:induction false} RowNotFloating(board: seq<seq<Option<Placed>>>, skip: Option<string>, r: int, n: nat, s: Sprite)
    requires IsGrid(board) && 0 <= r < 8 && n <= 8
    requires s in RowSprites(board, skip, r, n)
    ensures s.OnSquare?
  {
    if s !in CellSprites(board, skip, r, n - 1) {
      RowNotFloating(board, skip, r, n - 1, s);
    }
  }

  /** No floating image is among the in-place ones. */
  lemma {:induction false} PlacedNotFloating(board: seq<seq<Option<Placed>>>, skip: Option<string>, n: nat, s: Sprite)
    requires IsGrid(board) && n <= 8
    requires s in PlacedSprites(board, skip, n)
    ensures s.OnSquare?
  {
    if s in RowSprites(board, skip, n - 1, 8) {
      RowNotFloating(board, skip, n - 1, 8, s);
    } else {
      PlacedNotFloating(board, skip, n - 1, s);
    }
  }

  /**
   * A whole piece pass followed by floating images only: the in-place images
   * are exactly the drawn cells, and every image of the board pass is in place.
   */
  lemma PiecePass(board: seq<seq<Option<Placed>>>, skip: Option<string>, extra: seq<Sprite>)
    requires IsGrid(board)
    requires forall s :: s in extra ==> s.Floating?
    ensures forall name, col, row :: 0 <= col < 8 && 0 <= row < 8 ==>
      (OnSquare(name, col, row) in PlacedSprites(board, skip, 8) + extra <==> DrawnAt(board, skip, name, col, row))
    ensures forall s :: s in PlacedSprites(board, skip, 8) ==> s.OnSquare?
  {
    forall name, col, row | 0 <= col < 8 && 0 <= row < 8
      ensures OnSquare(name, col, row) in PlacedSprites(board, skip, 8) + extra <==> DrawnAt(board, skip, name, col, row)
    {
      DrawnInPlace(board, skip, 8, name, col, row);
    }
    forall s | s in PlacedSprites(board, skip, 8)
      ensures s.OnSquare?
    {
      PlacedNotFloating(board, skip, 8, s);
    }
  }
}
