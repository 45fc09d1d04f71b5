/**
 * The colour rules of the board and the status line: the palette chosen by
 * name, the chequer pattern of the squares, and the text that reports the
 * state of the game.
 */
module Appearance {
  import opened ChessEngine

  /** A palette: the two square colours and the two overlay tints. */
  datatype Theme = Theme(light: string, dark: string, highlight: string, lastmove: string)

  const DefaultTheme := Theme("#f0d9b5", "#b58863", "rgba(255, 255, 0, 0.4)", "rgba(50,200,255,0.4)")
  const BlueTheme := Theme("#dbeafe", "#2563eb", "rgba(16,185,129,0.4)", "rgba(59,130,246,0.4)")
  const GreenTheme := Theme("#cfe8cf", "#2c6b2c", "rgba(74,222,128,0.4)", "rgba(34,197,94,0.4)")
  const LightTheme := Theme("#f9fafb", "#e5e7eb", "rgba(253,186,116,0.5)", "rgba(251,191,36,0.4)")

  /** `getBoardTheme(name)`: three named palettes, anything else the default. */
  function GetBoardTheme(name: string): (t: Theme)
    ensures t in {DefaultTheme, BlueTheme, GreenTheme, LightTheme}
    ensures t.light != t.dark
  {
    if name == "blue" then BlueTheme
    else if name == "green" then GreenTheme
    else if name == "light" then LightTheme
    else DefaultTheme
  }

  /** The base colour of the square at (row, col), as `drawBoard` paints it. */
  function SquareColor(t: Theme, row: int, col: int): (c: string)
    ensures c == t.light || c == t.dark
    ensures t.light != t.dark ==> (c == t.light <==> (row + col) % 2 == 0)
  {
    if (row + col) % 2 == 0 then t.light else t.dark
  }

  /**
   * "blue", "green" and "light" select their palettes, and a name selects
   * the default palette exactly when it is none of them.
   */
  lemma ThemeFallback(name: string)
    ensures GetBoardTheme(name) == DefaultTheme <==> name !in {"blue", "green", "light"}
    ensures name == "blue" ==> GetBoardTheme(name) == BlueTheme
    ensures name == "green" ==> GetBoardTheme(name) == GreenTheme
    ensures name == "light" ==> GetBoardTheme(name) == LightTheme
  {
    assert DefaultTheme.light[1] != BlueTheme.light[1];
    assert DefaultTheme.light[1] != GreenTheme.light[1];
    assert DefaultTheme.light[2] != LightTheme.light[2];
  }

  /** In every palette the two square colours differ, so the chequer is visible. */
  lemma ThemeSquaresDiffer(name: string)
    ensures GetBoardTheme(name).light != GetBoardTheme(name).dark
  {
    var t := GetBoardTheme(name);
    assert t.light[1] != t.dark[1];
  }

  /**
   * The chequer pattern: a square is light exactly when row + col is even,
   * neighbouring squares in a row or a column differ, and the corner on
   * White's right (h1, row 7, col 7) is light while a1 is dark.
   */
  lemma ChequerPattern(t: Theme, row: int, col: int)
    requires t.light != t.dark
    requires 0 <= row < 8 && 0 <= col < 8
    ensures SquareColor(t, row, col) == t.light <==> (row + col) % 2 == 0
    ensures col < 7 ==> SquareColor(t, row, col) != SquareColor(t, row, col + 1)
    ensures row < 7 ==> SquareColor(t, row, col) != SquareColor(t, row + 1, col)
    ensures SquareColor(t, 7, 7) == t.light && SquareColor(t, 7, 0) == t.dark
  {
  }

  // ---------------------------------------------------------------------------
  // Status line
  // ---------------------------------------------------------------------------

  /** The state of the game the status line reports. */
  datatype Verdict = Won(winner: Color) | Drawn | Playing(toMove: Color, inCheck: bool)

  function Opponent(c: Color): Color
  {
    match c
    case White => Black
    case Black => White
  }

  function ColorName(c: Color): string
  {
    match c
    case White => "White"
    case Black => "Black"
  }

  /**
   * The reference reading of the engine's predicates: checkmate takes
   * precedence over a draw, a mated side has lost to its opponent, and
   * otherwise the side to move plays on, possibly in check.
   */
  function Judge(turn: Color, checkmate: bool, draw: bool, check: bool): Verdict
  {
    if checkmate then Won(Opponent(turn))
    else if draw then Drawn
    else Playing(turn, check)
  }

  /** The text `updateStatus` writes, from `turn()`, `isCheckmate()`, `isDraw()` and `isCheck()`. */
  function StatusText(turn: Color, checkmate: bool, draw: bool, check: bool): (text: string)
    ensures text == Describe(Judge(turn, checkmate, draw, check))
  {
    var name := if turn == White then "White" else "Black";
    if checkmate then
      "Checkmate! " + (if name == "White" then "Black" else "White") + " wins."
    else if draw then
      "Draw!"
    else
      name + "'s turn to move." + (if check then " (in Check)" else "")
  }

  /** The text that `StatusText` shows for each verdict. */
  function Describe(v: Verdict): string
  {
    match v
    case Won(w) => "Checkmate! " + ColorName(w) + " wins."
    case Drawn => "Draw!"
    case Playing(c, inCheck) => ColorName(c) + "'s turn to move." + (if inCheck then " (in Check)" else "")
  }

  /**
   * The reference reading of the status line: a checkmate names the side
   * not to move as the winner, and play goes on exactly when there is
   * neither checkmate nor draw.
   */
  lemma StatusDescribesVerdict(turn: Color, checkmate: bool, draw: bool, check: bool)
    ensures checkmate ==> Judge(turn, checkmate, draw, check).winner != turn
    ensures Judge(turn, checkmate, draw, check).Playing? <==> !checkmate && !draw
  {
  }

  /** Different verdicts give different texts, so the status line can be read back. */
  lemma DescribeInjective(v: Verdict, w: Verdict)
    requires Describe(v) == Describe(w)
    ensures v == w
  {
    var s := Describe(v);
    if v.Drawn? || w.Drawn? {
      assert s[0] == 'D' || |s| != |"Draw!"|;
    } else if v.Won? && w.Won? {
      assert Describe(v)[11] == ColorName(v.winner)[0];
      assert Describe(w)[11] == ColorName(w.winner)[0];
    } else if v.Playing? && w.Playing? {
      assert Describe(v)[0] == ColorName(v.toMove)[0];
      assert Describe(w)[0] == ColorName(w.toMove)[0];
    }
  }
}
