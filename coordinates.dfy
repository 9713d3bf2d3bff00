/**
 * The pixel-to-square mapping of the chess GUI (`coords_to_square`).
 *
 * The board is 8 x 8 cells of 90 x 90 pixels. Columns grow to the right while
 * file letters decrease (column 0 is file 'h', column 7 is file 'a'); row 0 is
 * the top of the window and holds rank '8'. Pixels are taken after their cast
 * to a 16-bit signed integer, and the integer division is Rust's, which
 * rounds toward zero.
 */
module Coordinates {
  import opened Wrappers

  /** A pixel coordinate after the `as i16` cast. */
  type I16 = x: int | -0x8000 <= x < 0x8000

  /** Side of one board cell, in pixels (GRID_CELL_SIZE). */
  const CellSize: int := 90
  /** Number of cells along each side of the board (GRID_SIZE). */
  const GridSize: int := 8
  /** Side of the window, in pixels (SCREEN_SIZE). */
  const BoardPixels: int := GridSize * CellSize

  /** The file letter of each column, column 0 first. */
  const Files: string := "hgfedcba"

  /** Rust's integer `/` for a positive divisor: the quotient rounded toward zero. */
  function TruncDiv(a: int, b: int): (q: int)
    requires b > 0
    ensures a >= 0 ==> q * b <= a < q * b + b
    ensures a < 0 ==> q * b - b < a <= q * b
  {
    if a >= 0 then a / b else -((-a) / b)
  }

  /** What the if/else chain on the column index appends: one letter for 0..7, nothing otherwise. */
  function FileText(col: int): (text: string)
  {
    if col == 7 then "a"
    else if col == 6 then "b"
    else if col == 5 then "c"
    else if col == 4 then "d"
    else if col == 3 then "e"
    else if col == 2 then "f"
    else if col == 1 then "g"
    else if col == 0 then "h"
    else ""
  }

  /** The rank match on `7 - row`; None is the panicking arm. */
  function RankChar(k: int): (rank: Option<char>)
  {
    match k
    case 0 => Some('1')
    case 1 => Some('2')
    case 2 => Some('3')
    case 3 => Some('4')
    case 4 => Some('5')
    case 5 => Some('6')
    case 6 => Some('7')
    case 7 | 8 => Some('8')
    case _ => None
  }

  /**
   * `coords_to_square`: the file letter (if any) followed by the rank
   * character; None stands for the panic of the rank match.
   */
  function CoordsToSquare(x: I16, y: I16): (square: Option<string>)
  {
    var file := FileText(TruncDiv(x, CellSize));
    match RankChar(7 - TruncDiv(y, CellSize))
    case Some(rank) => Some(file + [rank])
    case None => None
  }

  /** A square address: a file letter 'a'..'h' followed by a rank digit '1'..'8'. */
  predicate ValidSquare(s: string)
  {
    |s| == 2 && 'a' <= s[0] <= 'h' && '1' <= s[1] <= '8'
  }

  /** The square shown in the cell at (row, col) of the window. */
  function CellSquare(row: int, col: int): (s: string)
    requires 0 <= row < GridSize && 0 <= col < GridSize
  {
    [Files[col], ('8' as int - row) as char]
  }

  /** The (row, col) cell that shows square `s`. */
  function SquareCell(s: string): (cell: (int, int))
    requires ValidSquare(s)
  {
    ('8' as int - s[1] as int, 'h' as int - s[0] as int)
  }

  /** The top-left pixel of the cell that shows square `s`. */
  function SquareOrigin(s: string): (origin: (int, int))
    requires ValidSquare(s)
  {
    var (row, col) := SquareCell(s);
    (col * CellSize, row * CellSize)
  }

  /** The file letter of a column is 'h' minus the column. */
  lemma FileAt(col: int)
    requires 0 <= col < GridSize
    ensures Files[col] == ('h' as int - col) as char
    ensures FileText(col) == [Files[col]]
  {
    if col == 0 {} else if col == 1 {} else if col == 2 {} else if col == 3 {}
    else if col == 4 {} else if col == 5 {} else if col == 6 {} else {}
  }

  /** Cells and squares are in one-to-one correspondence: cell to square and back. */
  lemma CellSquareRoundTrip(row: int, col: int)
    requires 0 <= row < GridSize && 0 <= col < GridSize
    ensures ValidSquare(CellSquare(row, col))
    ensures SquareCell(CellSquare(row, col)) == (row, col)
  {
    FileAt(col);
  }

  /** Cells and squares are in one-to-one correspondence: square to cell and back. */
  lemma SquareCellRoundTrip(s: string)
    requires ValidSquare(s)
    ensures 0 <= SquareCell(s).0 < GridSize && 0 <= SquareCell(s).1 < GridSize
    ensures CellSquare(SquareCell(s).0, SquareCell(s).1) == s
  {
    var (row, col) := SquareCell(s);
    FileAt(col);
    assert CellSquare(row, col)[0] == s[0];
    assert CellSquare(row, col)[1] == s[1];
  }

  /**
   * Inside the window every pixel maps to the two-character square of its
   * cell: file "hgfedcba"[x / 90], rank '8' - y / 90.
   */
  lemma CoordsInBoard(x: I16, y: I16)
    requires 0 <= x < BoardPixels && 0 <= y < BoardPixels
    ensures 0 <= y / CellSize < GridSize && 0 <= x / CellSize < GridSize
    ensures CoordsToSquare(x, y) == Some(CellSquare(y / CellSize, x / CellSize))
  {
    var row, col := y / CellSize, x / CellSize;
    FileAt(col);
    assert TruncDiv(x, CellSize) == col && TruncDiv(y, CellSize) == row;
    var rank := ('8' as int - row) as char;
    assert RankChar(7 - row) == Some(rank) by {
      if row == 0 {} else if row == 1 {} else if row == 2 {} else if row == 3 {}
      else if row == 4 {} else if row == 5 {} else if row == 6 {} else {}
    }
    assert FileText(col) + [rank] == CellSquare(row, col);
  }

  /** Inside the window, two pixels give the same square exactly when they lie in the same cell. */
  lemma CoordsInjective(x: I16, y: I16, x': I16, y': I16)
    requires 0 <= x < BoardPixels && 0 <= y < BoardPixels
    requires 0 <= x' < BoardPixels && 0 <= y' < BoardPixels
    ensures CoordsToSquare(x, y) == CoordsToSquare(x', y')
            <==> x / CellSize == x' / CellSize && y / CellSize == y' / CellSize
  {
    CoordsInBoard(x, y);
    CoordsInBoard(x', y');
    var s, s' := CellSquare(y / CellSize, x / CellSize), CellSquare(y' / CellSize, x' / CellSize);
    if s == s' {
      CellSquareRoundTrip(y / CellSize, x / CellSize);
      CellSquareRoundTrip(y' / CellSize, x' / CellSize);
    }
  }

  /**
   * Every square is produced, by exactly the 90 x 90 pixels of the cell whose
   * top-left corner is SquareOrigin(s); in particular by the cell's centre.
   */
  lemma SquareOriginHits(s: string, dx: int, dy: int)
    requires ValidSquare(s)
    requires 0 <= dx < CellSize && 0 <= dy < CellSize
    ensures 0 <= SquareOrigin(s).0 + dx < BoardPixels && 0 <= SquareOrigin(s).1 + dy < BoardPixels
    ensures CoordsToSquare(SquareOrigin(s).0 + dx, SquareOrigin(s).1 + dy) == Some(s)
  {
    SquareCellRoundTrip(s);
    var (row, col) := SquareCell(s);
    var x, y := col * CellSize + dx, row * CellSize + dy;
    assert x / CellSize == col && y / CellSize == row;
    CoordsInBoard(x, y);
  }

  /**
   * For every 16-bit pixel: the mapping panics exactly when y <= -180 or
   * y >= 720; otherwise it yields the file letter of column TruncDiv(x, 90)
   * only when -90 < x < 720 (so columns left of the window still give 'h'),
   * followed by the rank, which is '8' for every negative y.
   */
  lemma CoordsOutsideBoard(x: I16, y: I16)
    ensures CoordsToSquare(x, y).None? <==> y <= -2 * CellSize || BoardPixels <= y
    ensures CoordsToSquare(x, y).Some? ==>
      CoordsToSquare(x, y).value ==
        (if -CellSize < x < BoardPixels then [Files[TruncDiv(x, CellSize)]] else [])
        + [if y < 0 then '8' else ('8' as int - y / CellSize) as char]
  {
    var col, row := TruncDiv(x, CellSize), TruncDiv(y, CellSize);
    if -CellSize < x < BoardPixels {
      assert 0 <= col < GridSize;
      FileAt(col);
    } else {
      assert col < 0 || GridSize <= col;
    }
    if y < 0 {
      assert -1 <= row <= 0 <==> -2 * CellSize < y;
    } else {
      assert row == y / CellSize;
    }
  }
}
