/**
 * The chess rules library, seen only through the queries the board UI makes
 * of it. Its rules are not modelled: every answer is an arbitrary, fixed
 * function of the moves the library has accepted since its last reset, which
 * is how that library derives its position.
 */
module ChessEngine {
  import opened Wrappers
  import opened Coords

  /** A side, written 'w' or 'b' by the library. */
  datatype Color = White | Black

  /** A piece type, written 'p', 'n', 'b', 'r', 'q' or 'k' by the library. */
  datatype PieceType = Pawn | Knight | Bishop | Rook | Queen | King

  /** What `get(square)` reports for an occupied square. */
  datatype Piece = Piece(color: Color, kind: PieceType)

  /** The `from` and `to` fields of a move record (verbose move list, `move()` result). */
  datatype Move = Move(from: string, to: string)

  /** An entry of the `board()` grid: the piece and the name of its square. */
  datatype Placed = Placed(piece: Piece, square: string)

  /** The library's answers, each a function of the accepted moves since reset. */
  datatype Rules = Rules(
    get: (seq<Move>, string) -> Option<Piece>,
    turn: seq<Move> -> Color,
    moves: (seq<Move>, string) -> seq<Move>,
    judge: (seq<Move>, string, string, char) -> Option<Move>,
    isCheck: seq<Move> -> bool,
    isCheckmate: seq<Move> -> bool,
    isDraw: seq<Move> -> bool)

  function ColorCode(c: Color): char
  {
    match c
    case White => 'w'
    case Black => 'b'
  }

  function TypeCode(t: PieceType): char
  {
    match t
    case Pawn => 'p'
    case Knight => 'n'
    case Bishop => 'b'
    case Rook => 'r'
    case Queen => 'q'
    case King => 'k'
  }

  /** The grid entry for the square at (col, row) of a position. */
  function PlacedAt(rules: Rules, history: seq<Move>, row: int, col: int): Option<Placed>
    requires 0 <= row < 8 && 0 <= col < 8
  {
    match rules.get(history, SquareName(col, row))
    case None => None
    case Some(p) => Some(Placed(p, SquareName(col, row)))
  }

  /** A chess game held by the library; `history` is all of its state. */
  class Game {
    const rules: Rules
    var history: seq<Move>

    constructor (rules: Rules)
      ensures this.rules == rules && history == []
    {
      this.rules := rules;
      history := [];
    }

    /** `get(square)`. */
    function Get(square: string): Option<Piece>
      reads this
    {
      rules.get(history, square)
    }

    /** `turn()`. */
    function Turn(): Color
      reads this
    {
      rules.turn(history)
    }

    /** `moves({ square, verbose: true })`. */
    function Moves(square: string): seq<Move>
      reads this
    {
      rules.moves(history, square)
    }

    function IsCheck(): bool
      reads this
    {
      rules.isCheck(history)
    }

    function IsCheckmate(): bool
      reads this
    {
      rules.isCheckmate(history)
    }

    function IsDraw(): bool
      reads this
    {
      rules.isDraw(history)
    }

    /** `board()`: eight rows of eight entries, row 0 holding rank 8. */
    function Board(): (b: seq<seq<Option<Placed>>>)
      reads this
      ensures |b| == 8
      ensures forall row :: 0 <= row < 8 ==> |b[row]| == 8
    {
      var h := history;
      seq(8, row requires 0 <= row < 8 =>
        seq(8, col requires 0 <= col < 8 => PlacedAt(rules, h, row, col)))
    }

    /** Each entry of `board()` agrees with `get` on the square of its row and column. */
    lemma BoardAgreesWithGet(row: int, col: int)
      requires 0 <= row < 8 && 0 <= col < 8
      ensures var square := SquareName(col, row);
        Board()[row][col] == if Get(square).Some? then Some(Placed(Get(square).value, square)) else None
    {
    }

    /**
     * `move({ from, to, promotion })`: the library's verdict on the request;
     * an accepted move becomes part of the game, a rejected one changes nothing.
     */
    method MakeMove(from: string, to: string, promotion: char) returns (m: Option<Move>)
      modifies this
      ensures m == rules.judge(old(history), from, to, promotion)
      ensures history == if m.Some? then old(history) + [m.value] else old(history)
    {
      m := rules.judge(history, from, to, promotion);
      if m.Some? {
        history := history + [m.value];
      }
    }

    /** `reset()`: back to the starting position. */
    method Reset()
      modifies this
      ensures history == []
    {
      history := [];
    }
  }
}
