/**
 * The mapping between pointer positions on the canvas and algebraic square
 * names ("e4"), as `getSquareFromCoords` and `squareToCoords` compute it.
 * Row 0 is the top of the canvas (rank 8); column 0 is the a-file.
 */
module Coords {

  /** The file letters in column order; the source indexes this string. */
  const Files := "abcdefgh"

  /** A JavaScript number as far as this module needs it: an integer or NaN. */
  datatype JsNumber = Finite(value: int) | NaN

  /** The `{ row, col, square }` record returned by `getSquareFromCoords`. */
  datatype Located = Located(row: int, col: int, square: string)

  /** The `{ col, row }` record returned by `squareToCoords`. */
  datatype GridPos = GridPos(col: int, row: JsNumber)

  /** One of the 64 well-formed square names: a file letter and a rank digit. */
  predicate IsSquare(s: string)
  {
    |s| == 2 && 'a' <= s[0] <= 'h' && '1' <= s[1] <= '8'
  }

  function DigitChar(d: int): (c: char)
    requires 0 <= d < 10
    ensures '0' <= c <= '9' && c as int - '0' as int == d
  {
    ('0' as int + d) as char
  }

  /** The name of the square in column `col` and row `row` of the 8x8 grid. */
  function SquareName(col: int, row: int): (s: string)
    requires 0 <= col < 8 && 0 <= row < 8
    ensures IsSquare(s)
  {
    [Files[col], DigitChar(8 - row)]
  }

  /** `'abcdefgh'[col]` placed in a template string: out of range it reads "undefined". */
  function FileText(col: int): (f: string)
    ensures 0 <= col < 8 ==> f == [Files[col]]
    ensures !(0 <= col < 8) ==> f == "undefined"
  {
    if 0 <= col < 8 then [Files[col]] else "undefined"
  }

  /** Decimal text of a natural number, as a template string prints it. */
  function NatText(n: nat): (t: string)
    ensures 1 <= |t|
    ensures |t| == 1 <==> n < 10
    ensures n < 10 ==> t == [DigitChar(n)]
    ensures forall i :: 0 <= i < |t| ==> '0' <= t[i] <= '9'
  {
    if n < 10 then [DigitChar(n)] else NatText(n / 10) + [DigitChar(n % 10)]
  }

  /** Decimal text of an integer, with a leading '-' when it is negative. */
  function IntText(n: int): (t: string)
    ensures 1 <= |t|
    ensures |t| == 1 <==> 0 <= n < 10
    ensures 0 <= n < 10 ==> t == [DigitChar(n)]
  {
    if n < 0 then "-" + NatText(-n) else NatText(n)
  }

  /**
   * `getSquareFromCoords(x, y)` with square size `size`: the column and row of
   * the pixel and the name built from them. There is no bounds check, so off
   * the board the name is not a square ("undefined9", "a0", "h10", ...).
   */
  function GetSquareFromCoords(x: real, y: real, size: real): (loc: Located)
    requires size > 0.0
    ensures loc.col as real <= x / size < loc.col as real + 1.0
    ensures loc.row as real <= y / size < loc.row as real + 1.0
  {
    var col := (x / size).Floor;
    var row := (y / size).Floor;
    Located(row, col, FileText(col) + IntText(8 - row))
  }

  /** `'abcdefgh'.indexOf(c)`: the first position of `c` among the files, or -1. */
  function FileIndex(c: char): (i: int)
    ensures -1 <= i < 8
    ensures i == -1 <==> c !in Files
    ensures 0 <= i ==> Files[i] == c
  {
    IndexOf(Files, c, 0)
  }

  /** `s.indexOf(c)` searching from position `k`: the first match at or after `k`, or -1. */
  function IndexOf(s: string, c: char, k: nat): (i: int)
    requires k <= |s|
    ensures i == -1 || k <= i < |s|
    ensures i == -1 <==> (forall j :: k <= j < |s| ==> s[j] != c)
    ensures i != -1 ==> s[i] == c && forall j :: k <= j < i ==> s[j] != c
    decreases |s| - k
  {
    if k == |s| then -1
    else if s[k] == c then k
    else IndexOf(s, c, k + 1)
  }

  /** `parseInt` of a one-character string: its digit value, or NaN. */
  function ParseDigit(c: char): (n: JsNumber)
    ensures n.Finite? <==> '0' <= c <= '9'
    ensures n.Finite? ==> 0 <= n.value < 10 && DigitChar(n.value) == c
  {
    if '0' <= c <= '9' then Finite(c as int - '0' as int) else NaN
  }

  /**
   * `squareToCoords(square)`: the column is the index of the first character
   * among the files (-1 when absent or when the string is empty), the row is
   * 8 minus the digit in the second character (NaN when there is none).
   */
  function SquareToCoords(square: string): (p: GridPos)
    ensures p.col == -1 || (0 <= p.col < 8 && |square| > 0 && Files[p.col] == square[0])
    ensures p.col == -1 <==> (|square| == 0 || square[0] !in Files)
    ensures p.row.Finite? <==> (|square| > 1 && '0' <= square[1] <= '9')
    ensures p.row.Finite? ==> -1 <= p.row.value <= 8 && DigitChar(8 - p.row.value) == square[1]
  {
    var col := if |square| > 0 then FileIndex(square[0]) else -1;
    var rank := if |square| > 1 then ParseDigit(square[1]) else NaN;
    GridPos(col, if rank.Finite? then Finite(8 - rank.value) else NaN)
  }

  // ---------------------------------------------------------------------------
  // Lemmas
  // ---------------------------------------------------------------------------

  /** Multiplying by a positive size keeps a strict order between reals. */
  lemma ScaleStrict(a: real, b: real, size: real)
    requires size > 0.0 && a < b
    ensures a * size < b * size
  {
    assert (b - a) * size > 0.0;
  }

  /** Multiplying by a positive size keeps a weak order between reals. */
  lemma ScaleWeak(a: real, b: real, size: real)
    requires size > 0.0 && a <= b
    ensures a * size <= b * size
  {
    assert (b - a) * size >= 0.0;
  }

  /** The quotient of a pixel inside the k-th band of width `size` floors to k. */
  lemma FloorInBand(v: real, size: real, k: int)
    requires size > 0.0
    requires k as real * size <= v < (k as real + 1.0) * size
    ensures (v / size).Floor == k
  {
    var q := v / size;
    assert q * size == v;
    assert k as real <= q by {
      if q < k as real {
        ScaleStrict(q, k as real, size);
      }
    }
    assert q < k as real + 1.0 by {
      if k as real + 1.0 <= q {
        ScaleWeak(k as real + 1.0, q, size);
      }
    }
  }

  /** A quotient in [lo, hi) puts the pixel in [lo*size, hi*size). */
  lemma BandOfQuotient(v: real, size: real, lo: real, hi: real)
    requires size > 0.0
    requires lo <= v / size < hi
    ensures lo * size <= v < hi * size
  {
    var q := v / size;
    assert q * size == v;
    if lo < q {
      ScaleStrict(lo, q, size);
    }
    ScaleStrict(q, hi, size);
  }

  /** A pixel in [lo*size, hi*size) has its quotient in [lo, hi). */
  lemma QuotientInBand(v: real, size: real, lo: real, hi: real)
    requires size > 0.0
    requires lo * size <= v < hi * size
    ensures lo <= v / size < hi
  {
  }

  /** Reading back a square name gives the grid position it was built from. */
  lemma SquareNameCoords(col: int, row: int)
    requires 0 <= col < 8 && 0 <= row < 8
    ensures SquareToCoords(SquareName(col, row)) == GridPos(col, Finite(row))
  {
    var s := SquareName(col, row);
    assert Files[col] == s[0];
    assert Files[col] !in Files[..col];
  }

  /**
   * Round trip from pixels: any pixel inside the square at (col, row) is
   * located at that column and row, named by that square, and reading the
   * name back yields the same grid position.
   */
  lemma PixelRoundTrip(x: real, y: real, size: real, col: int, row: int)
    requires size > 0.0
    requires 0 <= col < 8 && 0 <= row < 8
    requires col as real * size <= x < (col as real + 1.0) * size
    requires row as real * size <= y < (row as real + 1.0) * size
    ensures GetSquareFromCoords(x, y, size) == Located(row, col, SquareName(col, row))
    ensures SquareToCoords(GetSquareFromCoords(x, y, size).square) == GridPos(col, Finite(row))
  {
    FloorInBand(x, size, col);
    FloorInBand(y, size, row);
    SquareNameCoords(col, row);
  }

  /** Every well-formed square is the name of exactly one grid position on the board. */
  lemma SquareIsNamed(s: string) returns (col: int, row: int)
    requires IsSquare(s)
    ensures 0 <= col < 8 && 0 <= row < 8 && s == SquareName(col, row)
  {
    col := s[0] as int - 'a' as int;
    row := 8 - (s[1] as int - '0' as int);
    assert Files[col] == s[0];
  }

  /** The top-left pixel and the centre of grid position (col, row) are named by its square. */
  lemma GridRoundTrip(col: int, row: int, size: real)
    requires size > 0.0 && 0 <= col < 8 && 0 <= row < 8
    ensures GetSquareFromCoords(col as real * size, row as real * size, size).square == SquareName(col, row)
    ensures GetSquareFromCoords((col as real + 0.5) * size, (row as real + 0.5) * size, size).square
      == SquareName(col, row)
  {
    LocatedNameIsSquare(col, row);
    ScaledFloors(col, size);
    ScaledFloors(row, size);
  }

  /** The top-left corner and the centre of band k both have quotient floor k. */
  lemma ScaledFloors(k: int, size: real)
    requires size > 0.0
    ensures ((k as real * size) / size).Floor == k
    ensures (((k as real + 0.5) * size) / size).Floor == k
  {
    ScaledQuotient(k as real, size);
    var centre := k as real + 0.5;
    ScaledQuotient(centre, size);
    assert ((k as real + 0.5) * size) / size == centre;
    assert centre.Floor == k;
  }

  /** Dividing a multiple of the square size by that size gives the multiplier back. */
  lemma ScaledQuotient(a: real, size: real)
    requires size > 0.0
    ensures (a * size) / size == a
  {
    var q := (a * size) / size;
    assert q * size == a * size;
    assert (q - a) * size == 0.0;
  }

  /**
   * Round trip from names: every well-formed square reads back to a grid
   * position on the board, and both the top-left pixel and the centre of that
   * position map back to the same name.
   */
  lemma SquareRoundTrip(s: string, size: real) returns (col: int, row: int)
    requires size > 0.0 && IsSquare(s)
    ensures SquareToCoords(s) == GridPos(col, Finite(row))
    ensures 0 <= col < 8 && 0 <= row < 8
    ensures GetSquareFromCoords(col as real * size, row as real * size, size).square == s
    ensures GetSquareFromCoords((col as real + 0.5) * size, (row as real + 0.5) * size, size).square == s
  {
    col, row := SquareIsNamed(s);
    SquareNameCoords(col, row);
    GridRoundTrip(col, row, size);
  }

  /** A pixel lies on the board exactly when both its column and row are in 0..7. */
  lemma OnBoardBands(x: real, y: real, size: real)
    requires size > 0.0
    ensures (0.0 <= x < 8.0 * size && 0.0 <= y < 8.0 * size) <==>
      (0 <= (x / size).Floor < 8 && 0 <= (y / size).Floor < 8)
  {
    if 0.0 <= x < 8.0 * size && 0.0 <= y < 8.0 * size {
      QuotientInBand(x, size, 0.0, 8.0);
      QuotientInBand(y, size, 0.0, 8.0);
    }
    if 0 <= (x / size).Floor < 8 && 0 <= (y / size).Floor < 8 {
      BandOfQuotient(x, size, 0.0, 8.0);
      BandOfQuotient(y, size, 0.0, 8.0);
    }
  }

  /** The name built from a column and a row is a square exactly when both are in 0..7. */
  lemma LocatedNameIsSquare(col: int, row: int)
    ensures IsSquare(FileText(col) + IntText(8 - row)) <==> (0 <= col < 8 && 0 <= row < 8)
    ensures 0 <= col < 8 && 0 <= row < 8 ==> FileText(col) + IntText(8 - row) == SquareName(col, row)
  {
    var name := FileText(col) + IntText(8 - row);
    if IsSquare(name) {
      assert |FileText(col)| + |IntText(8 - row)| == 2;
      assert IntText(8 - row)[0] == name[1];
    }
  }

  /**
   * Range: the located name is a well-formed square exactly when the pixel
   * lies on the 8x8 board; then the file letter is column `col`, the rank
   * digit is 8 - `row`, and both lie in 0..7.
   */
  lemma OnBoardIff(x: real, y: real, size: real)
    requires size > 0.0
    ensures var loc := GetSquareFromCoords(x, y, size);
      IsSquare(loc.square) <==> (0.0 <= x < 8.0 * size && 0.0 <= y < 8.0 * size)
    ensures var loc := GetSquareFromCoords(x, y, size);
      (0.0 <= x < 8.0 * size && 0.0 <= y < 8.0 * size) ==>
        0 <= loc.col < 8 && 0 <= loc.row < 8 &&
        loc.square[0] == Files[loc.col] && loc.square[1] as int - '0' as int == 8 - loc.row
  {
    var loc := GetSquareFromCoords(x, y, size);
    OnBoardBands(x, y, size);
    LocatedNameIsSquare(loc.col, loc.row);
  }
}
