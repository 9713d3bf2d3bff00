/**
 * The board part of `App::render`: for each cell, row by row, a tile in one of
 * the two board colours and, when the engine's board holds a piece for that
 * cell, the piece's sprite, both placed at the pixel offset (col * 90, row * 90).
 */
module Render {
  import opened Wrappers
  import opened Coordinates

  datatype Colour = White | Black
  datatype PieceType = King | Queen | Rook | Bishop | Knight | Pawn
  /** A piece as the engine reports it; it is also the key of the sprite table. */
  datatype Piece = Piece(colour: Colour, pieceType: PieceType)

  /** The two tile colours, named after the constants BLACK and WHITE. */
  datatype TileColour = BlackTile | WhiteTile

  /** One drawing call: a filled tile, or a sprite, with its top-left pixel. */
  datatype DrawOp =
    | FillTile(tile: TileColour, x: int, y: int)
    | DrawSprite(piece: Piece, x: int, y: int)

  /** The engine's board: 64 cells in the engine's own index order. */
  type Snapshot = s: seq<Option<Piece>> | |s| == 64 witness seq(64, _ => None)

  /**
   * The engine's `Position::new(row, col).idx`, which is not part of this
   * model: any function that sends each cell to an index 0..63.
   */
  type PositionIndex = (int, int) -> int

  predicate IndexInRange(index: PositionIndex)
  {
    forall row, col :: 0 <= row < GridSize && 0 <= col < GridSize ==> 0 <= index(row, col) < 64
  }

  /** The colour match on `col % 2` and `row % 2`. */
  function TileColourAt(row: nat, col: nat): (tile: TileColour)
  {
    match col % 2
    case 0 => if row % 2 == 0 then BlackTile else WhiteTile
    case _ => if row % 2 == 0 then WhiteTile else BlackTile
  }

  /** The translation shared by the tile and the piece of a cell. */
  function TileOffset(row: int, col: int): (offset: (int, int))
  {
    (col * CellSize, row * CellSize)
  }

  /** The board lookup `get_board()[63 - idx]` for a cell. */
  function PieceAt(board: Snapshot, index: PositionIndex, row: int, col: int): (piece: Option<Piece>)
    requires IndexInRange(index)
    requires 0 <= row < GridSize && 0 <= col < GridSize
  {
    board[63 - index(row, col)]
  }

  /** What one iteration of the inner loop draws. */
  function CellOps(board: Snapshot, index: PositionIndex, row: int, col: int): (ops: seq<DrawOp>)
    requires IndexInRange(index)
    requires 0 <= row < GridSize && 0 <= col < GridSize
  {
    var (x, y) := TileOffset(row, col);
    [FillTile(TileColourAt(row, col), x, y)]
    + match PieceAt(board, index, row, col)
      case Some(p) => [DrawSprite(p, x, y)]
      case None => []
  }

  /** What the inner loop draws for the first `c` columns of `row`. */
  function RowOps(board: Snapshot, index: PositionIndex, row: int, c: nat): (ops: seq<DrawOp>)
    requires IndexInRange(index)
    requires 0 <= row < GridSize && c <= GridSize
  {
    if c == 0 then [] else RowOps(board, index, row, c - 1) + CellOps(board, index, row, c - 1)
  }

  /** What the outer loop draws for the first `r` rows. */
  function FrameRows(board: Snapshot, index: PositionIndex, r: nat): (ops: seq<DrawOp>)
    requires IndexInRange(index)
    requires r <= GridSize
  {
    if r == 0 then [] else FrameRows(board, index, r - 1) + RowOps(board, index, r - 1, GridSize)
  }

  /** The board drawing of `render`: the outer `for row` loop. */
  method Render(board: Snapshot, index: PositionIndex) returns (ops: seq<DrawOp>)
    requires IndexInRange(index)
    ensures ops == FrameRows(board, index, GridSize)
  {
    ops := [];
    for row := 0 to 8
      invariant ops == FrameRows(board, index, row)
    {
      var line := DrawRow(board, index, row);
      ops := ops + line;
    }
  }

  /** The inner `for col` loop of `render`, for one row. */
  method DrawRow(board: Snapshot, index: PositionIndex, row: int) returns (line: seq<DrawOp>)
    requires IndexInRange(index)
    requires 0 <= row < GridSize
    ensures line == RowOps(board, index, row, GridSize)
  {
    line := [];
    for col := 0 to 8
      invariant line == RowOps(board, index, row, col)
    {
      var cell := DrawCell(board, index, row, col);
      line := line + cell;
    }
  }

  /** The body of the inner loop: the tile, then the piece if the board has one there. */
  method DrawCell(board: Snapshot, index: PositionIndex, row: int, col: int) returns (ops: seq<DrawOp>)
    requires IndexInRange(index)
    requires 0 <= row < GridSize && 0 <= col < GridSize
    ensures ops == CellOps(board, index, row, col)
  {
    var x, y := col * CellSize, row * CellSize;
    ops := [FillTile(TileColourAt(row, col), x, y)];
    var piece := board[63 - index(row, col)];
    if piece.Some? {
      ops := ops + [DrawSprite(piece.value, x, y)];
    }
  }

  /** A tile is BLACK exactly when row + col is even. */
  lemma TileParity(row: nat, col: nat)
    ensures TileColourAt(row, col) == BlackTile <==> (row + col) % 2 == 0
  {
  }

  /** Horizontally and vertically adjacent tiles always differ in colour. */
  lemma TilesAlternate(row: nat, col: nat)
    ensures TileColourAt(row, col) != TileColourAt(row, col + 1)
    ensures TileColourAt(row, col) != TileColourAt(row + 1, col)
  {
    TileParity(row, col);
    TileParity(row, col + 1);
    TileParity(row + 1, col);
  }

  /**
   * Drawing and hit-testing share one addressing convention: a cell is drawn
   * at the top-left pixel of the square that `coords_to_square` reports for it.
   */
  lemma TileOffsetIsSquareOrigin(row: int, col: int)
    requires 0 <= row < GridSize && 0 <= col < GridSize
    ensures ValidSquare(CellSquare(row, col))
    ensures TileOffset(row, col) == SquareOrigin(CellSquare(row, col))
  {
    CellSquareRoundTrip(row, col);
  }

  /** Every sprite comes straight after a tile at the same offset (so nothing starts with a sprite). */
  predicate SpritesFollowTiles(ops: seq<DrawOp>)
  {
    forall i :: 0 <= i < |ops| && ops[i].DrawSprite? ==>
      0 < i && ops[i - 1].FillTile? && ops[i - 1].x == ops[i].x && ops[i - 1].y == ops[i].y
  }

  lemma SpritesFollowTilesConcat(a: seq<DrawOp>, b: seq<DrawOp>)
    requires SpritesFollowTiles(a) && SpritesFollowTiles(b)
    ensures SpritesFollowTiles(a + b)
  {
    forall i | 0 <= i < |a + b| && (a + b)[i].DrawSprite?
      ensures 0 < i && (a + b)[i - 1].FillTile?
      ensures (a + b)[i - 1].x == (a + b)[i].x && (a + b)[i - 1].y == (a + b)[i].y
    {
      if i < |a| {
        assert (a + b)[i] == a[i] && (a + b)[i - 1] == a[i - 1];
      } else {
        var j := i - |a|;
        assert (a + b)[i] == b[j] && 0 < j;
        assert (a + b)[i - 1] == b[j - 1];
      }
    }
  }

  lemma {:induction false} RowSpritesFollowTiles(board: Snapshot, index: PositionIndex, row: int, c: nat)
    requires IndexInRange(index)
    requires 0 <= row < GridSize && c <= GridSize
    ensures SpritesFollowTiles(RowOps(board, index, row, c))
  {
    if c > 0 {
      RowSpritesFollowTiles(board, index, row, c - 1);
      SpritesFollowTilesConcat(RowOps(board, index, row, c - 1), CellOps(board, index, row, c - 1));
    }
  }

  /** In the whole frame, every sprite is drawn right after a tile at the same offset. */
  lemma {:induction false} SpritesOnTiles(board: Snapshot, index: PositionIndex, r: nat)
    requires IndexInRange(index)
    requires r <= GridSize
    ensures SpritesFollowTiles(FrameRows(board, index, r))
  {
    if r > 0 {
      SpritesOnTiles(board, index, r - 1);
      RowSpritesFollowTiles(board, index, r - 1, GridSize);
      SpritesFollowTilesConcat(FrameRows(board, index, r - 1), RowOps(board, index, r - 1, GridSize));
    }
  }

  /** The cell an operation belongs to, read back from its offset. */
  predicate DrawnFor(board: Snapshot, index: PositionIndex, op: DrawOp, row: int, col: int)
    requires IndexInRange(index)
  {
    && 0 <= row < GridSize && 0 <= col < GridSize
    && (op.x, op.y) == TileOffset(row, col)
    && match op
       case FillTile(t, _, _) => t == TileColourAt(row, col)
       case DrawSprite(p, _, _) => PieceAt(board, index, row, col) == Some(p)
  }

  /** Every operation belongs to the cell at its offset. */
  predicate OwnCells(board: Snapshot, index: PositionIndex, ops: seq<DrawOp>)
    requires IndexInRange(index)
  {
    forall i :: 0 <= i < |ops| ==> DrawnFor(board, index, ops[i], ops[i].y / CellSize, ops[i].x / CellSize)
  }

  lemma OwnCellsConcat(board: Snapshot, index: PositionIndex, a: seq<DrawOp>, b: seq<DrawOp>)
    requires IndexInRange(index)
    requires OwnCells(board, index, a) && OwnCells(board, index, b)
    ensures OwnCells(board, index, a + b)
  {
    forall i | 0 <= i < |a + b|
      ensures DrawnFor(board, index, (a + b)[i], (a + b)[i].y / CellSize, (a + b)[i].x / CellSize)
    {
      if i < |a| {
        assert (a + b)[i] == a[i];
      } else {
        assert (a + b)[i] == b[i - |a|];
      }
    }
  }

  lemma {:induction false} RowOwnCells(board: Snapshot, index: PositionIndex, row: int, c: nat)
    requires IndexInRange(index)
    requires 0 <= row < GridSize && c <= GridSize
    ensures OwnCells(board, index, RowOps(board, index, row, c))
  {
    if c > 0 {
      RowOwnCells(board, index, row, c - 1);
      CellOwnCells(board, index, row, c - 1);
      OwnCellsConcat(board, index, RowOps(board, index, row, c - 1), CellOps(board, index, row, c - 1));
    }
  }

  lemma CellOwnCells(board: Snapshot, index: PositionIndex, row: int, col: int)
    requires IndexInRange(index)
    requires 0 <= row < GridSize && 0 <= col < GridSize
    ensures OwnCells(board, index, CellOps(board, index, row, col))
  {
    var (x, y) := TileOffset(row, col);
    assert x / CellSize == col && y / CellSize == row;
  }

  /**
   * Nothing is drawn that does not belong to its cell: every operation sits
   * at a cell offset, a tile has the colour of that cell and a sprite shows
   * the engine's piece for that cell.
   */
  lemma {:induction false} FrameSound(board: Snapshot, index: PositionIndex, r: nat)
    requires IndexInRange(index)
    requires r <= GridSize
    ensures OwnCells(board, index, FrameRows(board, index, r))
  {
    if r > 0 {
      FrameSound(board, index, r - 1);
      RowOwnCells(board, index, r - 1, GridSize);
      OwnCellsConcat(board, index, FrameRows(board, index, r - 1), RowOps(board, index, r - 1, GridSize));
    }
  }

  lemma {:induction false} CellInRow(board: Snapshot, index: PositionIndex, row: int, col: int, c: nat)
    requires IndexInRange(index)
    requires 0 <= row < GridSize && 0 <= col < c <= GridSize
    ensures forall op :: op in CellOps(board, index, row, col) ==> op in RowOps(board, index, row, c)
  {
    if col < c - 1 {
      CellInRow(board, index, row, col, c - 1);
    }
  }

  lemma {:induction false} RowInFrame(board: Snapshot, index: PositionIndex, row: int, r: nat)
    requires IndexInRange(index)
    requires 0 <= row < r <= GridSize
    ensures forall op :: op in RowOps(board, index, row, GridSize) ==> op in FrameRows(board, index, r)
  {
    assert FrameRows(board, index, r) == FrameRows(board, index, r - 1) + RowOps(board, index, r - 1, GridSize);
    if row < r - 1 {
      RowInFrame(board, index, row, r - 1);
    }
  }

  /** Every cell's tile, and its piece when the board has one, is in the frame. */
  lemma FrameComplete(board: Snapshot, index: PositionIndex, row: int, col: int)
    requires IndexInRange(index)
    requires 0 <= row < GridSize && 0 <= col < GridSize
    ensures FillTile(TileColourAt(row, col), col * CellSize, row * CellSize) in FrameRows(board, index, GridSize)
    ensures PieceAt(board, index, row, col).Some? ==>
      DrawSprite(PieceAt(board, index, row, col).value, col * CellSize, row * CellSize)
        in FrameRows(board, index, GridSize)
  {
    CellInRow(board, index, row, col, GridSize);
    RowInFrame(board, index, row, GridSize);
    var cell := CellOps(board, index, row, col);
    assert cell[0] in cell;
    if PieceAt(board, index, row, col).Some? {
      assert cell[1] in cell;
    }
  }
}
