# Chessboard UI controller, modelled in Dafny

Chession draws a chessboard on a browser canvas and turns mouse gestures into
move requests for a chess rules library. This project models the part of its
`ChessboardUI` class (`app.js`) that has behaviour you can state exactly:

- **Coordinates** (`coords.dfy`, module `Coords`). `getSquareFromCoords` maps a
  pointer position to a column, a row and an algebraic name such as `"e4"`.
  `squareToCoords` maps a name back to a column and a row. Pixels and the
  square size are reals, and the column and row are their floored quotients.
  The mapping is total, as in the code: off the board the name is not a square
  (`"undefined9"`, `"a0"`, `"h10"`). Off-board names are written with exact
  integers, which JavaScript matches only for moderate pixel values (see
  "Left out"). `squareToCoords` returns -1 for an unknown file and NaN for a
  missing or non-digit rank. Strings are sequences of Unicode characters, not
  of UTF-16 code units; for the ASCII square names the engine produces the two
  agree (see "Left out").
- **Rules library** (`engine.dfy`, module `ChessEngine`). The library is an
  oracle. A `Game` holds the list of moves it has accepted since its last
  reset. `get`, `turn`, `moves`, `move`, `isCheck`, `isCheckmate` and `isDraw`
  are arbitrary fixed functions of that list. `board()` is built from `get`.
  The rules of chess are not modelled.
- **Appearance** (`appearance.dfy`, module `Appearance`). The palettes of
  `getBoardTheme`, the chequer colour of a square, and the status line of
  `updateStatus`. The status line is compared with a reference verdict: won by
  the side not to move, drawn, or still playing (possibly in check).
- **Painting** (`painting.dfy`, module `Painting`). A redraw is recorded as the
  list of canvas calls it makes: square fills and piece images. For each grid
  cell, `Layers` lists the colours of all fills over it, bottom to top, and
  `Visible` is the colour of the topmost one. The highlight and last-move
  tints are translucent, so the canvas shows the layers blended; the blend
  itself is not computed.
- **Controller** (`chessboard.dfy`, module `Chessboard`). Class `ChessboardUI`
  has the fields `draggedPiece`, `fromSquare`, `legalMoves`, `lastMove` and
  `colors`. It has the three mouse handlers, `resetGame`, the theme switch,
  the status text, and `drawBoard`/`drawPieces` as methods with the nested
  row/column loops of the code. `Valid()` is the drag invariant: a drag is in
  progress exactly when there is an origin square, and highlights exist only
  during a drag.

Points where the behaviour follows the code rather than a tidier reading:

- A pointer-down during a drag over a piece of the side to move picks that
  piece up: the drag fields are overwritten, not kept. Over any other square
  the pointer-down does nothing and the drag goes on.
- `resetGame` clears `lastMove` and `legalMoves`. It leaves `draggedPiece` and
  `fromSquare` alone, so a drag in progress survives a reset.

## Model

| member | source | states |
|---|---|---|
| `Coords.GetSquareFromCoords` | app.js:233-239 | the column and row are the floors of x/S and y/S: the pixel lies in band [col, col+1) and [row, row+1) of the grid |
| `Coords.SquareToCoords` | app.js:241-248 | the column is the file letter's index among a..h, or -1 when the string is empty or its first character is not a file; the row is finite exactly when the second character is a digit, and then it is 8 minus that digit |
| `Coords.FileIndex` | app.js:245 | `indexOf` on "abcdefgh": -1 exactly when the character is not a file letter, otherwise a position holding that letter |
| `Coords.IndexOf` | app.js:245 | the first position at or after k holding the character, or -1 when there is none |
| `Coords.ParseDigit` | app.js:244 | `parseInt` of one character is finite exactly for a decimal digit, and then it is that digit's value |
| `Coords.NatText` | app.js:237-238 | the exact decimal text of a natural number is all digits, and it is one character long exactly below 10 |
| `Coords.IntText` | app.js:237-238 | the text of the rank is one character exactly when the rank is 0..9, and then it is that digit |
| `Coords.FileText` | app.js:236 | columns 0..7 give their file letter; any other column gives the text "undefined" |
| `Coords.SquareNameCoords` | app.js:241-248 | reading back the name of grid position (col, row) gives (col, row) |
| `Coords.ScaledFloors` | app.js:234-235 | the top-left pixel and the centre of band k both floor to k |
| `Coords.PixelRoundTrip` | app.js:233-248 | every pixel inside the square at (col, row) is located at that column and row under that square's name, and `squareToCoords` of the name gives (col, row) back |
| `Coords.GridRoundTrip` | app.js:233-248 | the top-left pixel and the centre of grid position (col, row) are both named by that position's square |
| `Coords.SquareRoundTrip` | app.js:233-248 | every well-formed square reads back to a position on the board, and both its top-left pixel and its centre map to the same square |
| `Coords.OnBoardIff` | app.js:233-239 | the computed name is a well-formed square exactly when 0 <= x, y < 8*S; then the file is column `col`, the rank is 8 - `row`, and both lie in 0..7 |
| `Coords.OnBoardBands` | app.js:234-235 | a pixel is on the board exactly when both floored quotients lie in 0..7 |
| `Coords.LocatedNameIsSquare` | app.js:236-238 | the name built from a column and a row is a square exactly when both lie in 0..7 |
| `Appearance.GetBoardTheme` | app.js:250-260 | the chosen palette is one of the four, and its light and dark square colours differ |
| `Appearance.SquareColor` | app.js:95 | a square's base colour is the palette's light or dark colour, light exactly when row + col is even |
| `Appearance.ThemeFallback` | app.js:250-260 | "blue", "green" and "light" select their palettes; any other name selects the default palette, and only such names do |
| `Appearance.ThemeSquaresDiffer` | app.js:250-260 | in every palette the light and the dark square colours differ |
| `Appearance.ChequerPattern` | app.js:93-99 | a square is light exactly when row + col is even; neighbours in a row or a column differ; h1 is light and a1 is dark |
| `Appearance.StatusText` | app.js:151-166 | the status text is the description of the reference verdict (checkmate, then draw, then whose turn, with the check suffix) |
| `Appearance.StatusDescribesVerdict` | app.js:151-166 | under the reference verdict a checkmate names the side not to move as the winner, and play goes on exactly when there is neither checkmate nor draw |
| `Appearance.DescribeInjective` | app.js:151-166 | different verdicts give different status texts, so the status line determines the verdict |
| `Painting.OverlayFills` | app.js:102-106 | one highlight fill per listed square, in list order, at the cell `squareToCoords` gives |
| `Painting.LastMoveFills` | app.js:109-115 | two fills in the last-move tint when there is a last move, none before any move |
| `Painting.BoardPaint` | app.js:91-116 | a redraw makes 64 chequer fills, one fill per highlight-list entry, and two more after a move |
| `Painting.VisibleAppend` | app.js:91-116 | the topmost fill over a cell is the last one painted there: the later pass's, if it touches the cell, else the earlier pass's |
| `Painting.VisibleRow` | app.js:94-98 | a partial row of the chequer pass fills exactly the cells it has reached, in their chequer colour |
| `Painting.VisibleBase` | app.js:93-99 | after the chequer pass the topmost fill over every cell is its parity colour |
| `Painting.VisibleOverlay` | app.js:102-106 | the highlight pass fills exactly the cells some legal destination names |
| `Painting.VisibleLastMove` | app.js:109-115 | the last-move pass fills exactly the cells of the move's two squares |
| `Painting.BoardPaintVisible` | app.js:91-116 | after a full board pass the topmost fill over every cell is the last-move tint if the last move touches it, else the highlight tint if a destination names it, else its chequer colour |
| `Painting.MarksIff` | app.js:241-248 | a well-formed square is placed on a cell exactly when it is that cell's name |
| `Painting.PaintedSquareColor` | app.js:91-116 | with well-formed squares from the engine, the colour of the topmost fill over each cell is decided by whether its name is a square of the last move or a legal destination |
| `Painting.Layers` | app.js:91-116 | a cell's layers are at most as many as the fills |
| `Painting.TopLayer` | app.js:91-116 | the topmost layer over a cell is its `Visible` colour, and a cell without layers is unpainted |
| `Painting.MarkCount` | app.js:102-106 | the number of list entries that land on a cell is zero exactly when no entry names it |
| `Painting.MoveMarks` | app.js:109-115 | the number of the last move's squares on a cell is at most two, and zero exactly when the move does not touch it |
| `Painting.LayersAppend` | app.js:91-116 | a later pass stacks its layers on those of an earlier pass |
| `Painting.LayersRow` | app.js:94-98 | a partial chequer row lays one chequer layer on each cell it has reached and none elsewhere |
| `Painting.LayersBase` | app.js:93-99 | the chequer pass lays exactly one layer, the parity colour, on every cell |
| `Painting.LayersOverlay` | app.js:102-106 | the highlight pass lays one tint layer per list entry naming the cell, so a destination listed k times is tinted k times |
| `Painting.LayersLastMove` | app.js:109-115 | the last-move pass lays one tint layer for each of the move's squares on the cell |
| `Painting.BoardLayers` | app.js:91-116 | after a full board pass every cell carries its chequer colour, then one highlight layer per destination entry naming it, then one last-move layer per square of the last move on it |
| `Painting.PieceNameInjective` | app.js:124 | different pieces have different colour+type image keys |
| `Painting.PieceName` | app.js:124 | an image key is two characters |
| `Painting.PieceNameFormat` | app.js:124 | an image key is a colour letter, 'w' exactly for White, then a type letter among p, n, b, r, q, k |
| `Painting.DrawnInRow` | app.js:121-135 | a partial row of the piece pass draws a piece in a cell exactly when it has reached that cell and the cell's piece is not on the skipped square |
| `Painting.DrawnInPlace` | app.js:120-136 | a piece image is drawn in a cell exactly when the cell holds a piece that is not on the drag's origin square, and the image is that piece's |
| `Painting.RowNotFloating` | app.js:121-135 | the per-row pass draws only in-place images |
| `Painting.PlacedNotFloating` | app.js:120-136 | the board pass draws only in-place images; the floating image comes from the dragged piece alone |
| `Painting.PiecePass` | app.js:120-136 | after the board pass and any floating images, a cell shows an in-place image exactly when `DrawnAt` holds, and every board-pass image is in place |
| `Chessboard.Destinations` | app.js:181 | the highlight list has one entry per legal move, and the i-th entry is the i-th move's destination |
| `Chessboard.ChessboardUI.constructor` | app.js:6-31 | a new controller uses the default palette and square size width/8, with no drag, no highlights and no last move |
| `Chessboard.ChessboardUI.CanPickUp` | app.js:170-174 | a piece can be picked up only when the square under the pointer holds one whose image key starts with the side to move's letter |
| `Chessboard.ChessboardUI.HandleMouseDown` | app.js:169-184 | a drag starts exactly when the square under the pointer holds a piece of the side to move; the origin, image key, pointer position and destinations are then set, and otherwise nothing changes |
| `Chessboard.ChessboardUI.HandleMouseMove` | app.js:186-191 | without a drag nothing changes; during a drag only the pointer position changes, and the origin, piece, highlights and last move stay |
| `Chessboard.ChessboardUI.HandleMouseUp` | app.js:193-218 | without a drag nothing changes; otherwise (origin, square under pointer, 'q') goes to the engine; an accepted move becomes the last move and a rejected one leaves it; either way the drag and the highlights are cleared |
| `Chessboard.ChessboardUI.ResetGame` | app.js:225-230 | the engine returns to the start, and the last move and the highlights are cleared; the drag fields are untouched |
| `Chessboard.ChessboardUI.SelectTheme` | app.js:68-71 | the palette becomes the one `getBoardTheme` gives for the chosen name; nothing else changes |
| `Chessboard.ChessboardUI.UpdateStatus` | app.js:151-166 | the status text is the description of the reference verdict on the engine's turn, checkmate, draw and check answers |
| `Chessboard.ChessboardUI.DrawBoard` | app.js:91-116 | the fills are exactly `BoardPaint`: the chequer row by row, then one highlight per destination, then the last move; the topmost fill over every cell has the colour `BoardPaintVisible` gives, and `BoardLayers` gives all the layers the canvas blends |
| `Chessboard.ChessboardUI.Skipped` | app.js:126 | the square left out of the piece pass is the origin while a drag with an origin is in progress, and none otherwise |
| `Chessboard.ChessboardUI.DrawPieces` | app.js:118-149 | every piece of `board()` is drawn in its cell except the one on the drag's origin; the dragged piece is drawn last, centred on the pointer, exactly when a drag is in progress |
| `Chessboard.ChessboardUI.PiecesFollowGet` | app.js:118-126 | a cell shows an image in place exactly when `get` reports a piece on its square, that square is not the drag's origin, and the image is that piece's key |
| `ChessEngine.Game.BoardAgreesWithGet` | app.js:119-122 | each entry of `board()` is the piece `get` reports on the square of that row and column, tagged with the square's name, or empty |

## Left out

- The chess rules library (`chess.mjs`). Its answers are arbitrary functions of its accepted-move history, so legality, check and draw detection are not modelled.
- `loadPieceImages`: asynchronous image loading and base64 SVG encoding. The image table is represented only by the image keys that drawing uses.
- `addEventListeners`, `handleKeyDown` and the page-load entry point: DOM wiring. The 'r' key only calls `resetGame`, which is modelled.
- The dark-mode toggle and the piece-style selector: a CSS class toggle and an image reload.
- `flashInvalidMove`: a CSS class added and removed by a 300 ms timer. A rejected drop is modelled only by its effect on state.
- `render()` after each handler: the redraw passes are modelled as separate methods, not as calls from the handlers.
- `updateStatus` writing the text into the page: only the computed text is modelled.
- `resizeCanvas`: window-size floating-point arithmetic. The canvas width is a positive whole number given to the constructor.
- `Chessboard.ChessboardUI.constructor`: requires a positive canvas width. A zero-width canvas would divide by a zero square size.
- `Chessboard.ChessboardUI.DrawPieces`: the 0.7 opacity of the dragged image and the pixel size of each image are not recorded.
- `Chessboard.ChessboardUI.DrawBoard`: fills are recorded by grid cell; their pixel rectangle is (col*S, row*S, S, S). The highlight and last-move tints are translucent rgba colours, so the canvas blends them over the chequer and over each other, and a repeated destination is tinted darker; the contract gives the topmost fill and the stack of layers, not the blended colour.
- `Painting.VisibleAppend`: describes the topmost fill only. The tints are translucent and blend with what lies below; `Painting.LayersAppend` records the whole stack.
- `Painting.BoardPaintVisible`: gives the topmost fill over a cell, not the colour on screen, which blends the translucent tints over the chequer colour and darkens with repeated fills; `Painting.BoardLayers` gives the full stack.
- `Painting.PaintedSquareColor`: gives the topmost fill by square name, not the blended colour; the screen colour also depends on the cell's parity and on how many translucent fills cover it.
- `Coords.SquareToCoords`: strings are modelled as sequences of Unicode characters, not UTF-16 code units, so for a name whose first character lies outside the Basic Multilingual Plane the model reads the rank from the second character where JavaScript reads a lone surrogate (and gets NaN). The ASCII square names the engine produces are unaffected.
- `Coords.NatText`: writes exact integers. JavaScript writes numbers of 10^21 or more in exponent form ("1e+21"), and above 2^53 its floored quotients and `8 - row` are no longer exact, so off-board names match the code only while |8 - row| < 10^21 and the pixel values stay within double precision. On-board names are unaffected.
- `Chessboard.ChessboardUI.DrawPieces`: the `draggedPiece.pos` check of the floating image is always true here, since a dragged piece always has a position.
- The mutable `draggedPiece` object is a value that the model replaces. Nothing else holds a reference to it, so no aliasing is lost.
