/**
 * Conversion between the board model (rows of tile numbers, 0 for the blank cell) and the tile
 * map of the board state: `createTileState` builds one fresh tile per non-zero cell, keyed by its
 * number, and `getBoardModelFromTileData` rebuilds the grid from the tiles' row and column.
 */
module TileState {
  import opened Wrappers
  import opened Tiles
  import opened AxisDispatcher

  /** A grid of tile numbers, row by row. */
  type Board = seq<seq<int>>

  /** `createTileStateFromData`: the tile for `number` resting in cell (`rowIndex`, `columnIndex`). */
  function TileFromData(number: int, tileSize: int, rowIndex: int, columnIndex: int): Tile
  {
    Tile(number, columnIndex * tileSize, rowIndex * tileSize, tileSize, tileSize, false,
         None, None, None, None, columnIndex, rowIndex)
  }

  /** The tiles of one row, left to right, with the blank (0) cells dropped. */
  function RowTiles(row: seq<int>, rowIndex: int, tileSize: int): seq<Tile>
    decreases |row|
  {
    if |row| == 0 then []
    else
      var c := |row| - 1;
      RowTiles(row[..c], rowIndex, tileSize)
        + (if row[c] != 0 then [TileFromData(row[c], tileSize, rowIndex, c)] else [])
  }

  /** `_.compact(_.flatMap(boardOfTileData))`: the tiles of every non-zero cell in row-major order. */
  function BoardTiles(board: Board, tileSize: int): seq<Tile>
    decreases |board|
  {
    if |board| == 0 then []
    else
      var r := |board| - 1;
      BoardTiles(board[..r], tileSize) + RowTiles(board[r], r, tileSize)
  }

  /**
   * The `forEach` that files each tile under its number: a later tile overwrites an earlier one
   * with the same number. The map holds exactly the numbers of `s`, each under its own number,
   * and each number is mapped to the last tile of `s` that carries it.
   */
  function HashOf(s: seq<Tile>): (m: map<int, Tile>)
    ensures m.Keys == Numbers(s)
    ensures WellKeyed(m)
    ensures forall k :: k in m ==> m[k] in s
    ensures forall i :: 0 <= i < |s| ==>
      m[s[i].number] == s[i] || exists j :: i < j < |s| && s[j].number == s[i].number
    decreases |s|
  {
    if |s| == 0 then map[]
    else
      var front := s[..|s| - 1];
      var last := s[|s| - 1];
      var m := HashOf(front)[last.number := last];
      assert forall t :: t in s <==> t in front || t == last by {
        assert s == front + [last];
      }
      assert forall i :: 0 <= i < |s| - 1 ==> s[i] == front[i];
      m
  }

  /** `createTileState(boardModel, tileSize)` as a value. */
  function TileMap(board: Board, tileSize: int): map<int, Tile>
  {
    HashOf(BoardTiles(board, tileSize))
  }

  /** `createTileState`: the pure map/flatMap/compact stage, then the `forEach` filling the hash. */
  method CreateTileState(board: Board, tileSize: int) returns (hashOfTileData: map<int, Tile>)
    ensures hashOfTileData == TileMap(board, tileSize)
  {
    var arrayOfTileData := BoardTiles(board, tileSize);
    hashOfTileData := map[];
    var i := 0;
    while i < |arrayOfTileData|
      invariant 0 <= i <= |arrayOfTileData|
      invariant hashOfTileData == HashOf(arrayOfTileData[..i])
    {
      var tileData := arrayOfTileData[i];
      assert arrayOfTileData[..i + 1][..i] == arrayOfTileData[..i];
      hashOfTileData := hashOfTileData[tileData.number := tileData];
      i := i + 1;
    }
    assert arrayOfTileData[..i] == arrayOfTileData;
  }

  /** The cell (`r`, `c`) exists in `board`. */
  predicate IsCell(board: Board, r: int, c: int)
  {
    0 <= r < |board| && 0 <= c < |board[r]|
  }

  /** The numbers of the non-zero cells. */
  function NonZeroNumbers(board: Board): set<int>
  {
    set r, c | 0 <= r < |board| && 0 <= c < |board[r]| && board[r][c] != 0 :: board[r][c]
  }

  /** No non-zero number occurs in two cells. */
  predicate DistinctNonZero(board: Board)
  {
    forall r1, c1, r2, c2 ::
      0 <= r1 < |board| && 0 <= c1 < |board[r1]| && 0 <= r2 < |board| && 0 <= c2 < |board[r2]|
      && board[r1][c1] != 0 && board[r1][c1] == board[r2][c2]
      ==> r1 == r2 && c1 == c2
  }

  /** The tiles of a row are exactly the fresh tiles of its non-zero cells. */
  lemma {:induction false} RowTilesCells(row: seq<int>, rowIndex: int, tileSize: int)
    ensures forall t :: t in RowTiles(row, rowIndex, tileSize) ==>
      t.row == rowIndex && 0 <= t.column < |row| && row[t.column] != 0
      && t == TileFromData(row[t.column], tileSize, rowIndex, t.column)
    ensures forall c :: 0 <= c < |row| && row[c] != 0 ==>
      TileFromData(row[c], tileSize, rowIndex, c) in RowTiles(row, rowIndex, tileSize)
    decreases |row|
  {
    if |row| > 0 {
      var c := |row| - 1;
      RowTilesCells(row[..c], rowIndex, tileSize);
      assert forall j :: 0 <= j < c ==> row[..c][j] == row[j];
    }
  }

  /**
   * The flattened, compacted array lists exactly one fresh tile per non-zero cell: each of its
   * tiles sits in a non-zero cell and was made from it, and every non-zero cell contributes one.
   */
  lemma {:induction false} BoardTilesCells(board: Board, tileSize: int)
    ensures forall t :: t in BoardTiles(board, tileSize) ==>
      IsCell(board, t.row, t.column) && board[t.row][t.column] != 0
      && t == TileFromData(board[t.row][t.column], tileSize, t.row, t.column)
    ensures forall r, c :: IsCell(board, r, c) && board[r][c] != 0 ==>
      TileFromData(board[r][c], tileSize, r, c) in BoardTiles(board, tileSize)
    decreases |board|
  {
    if |board| > 0 {
      var r := |board| - 1;
      BoardTilesCells(board[..r], tileSize);
      RowTilesCells(board[r], r, tileSize);
      assert forall j :: 0 <= j < r ==> board[..r][j] == board[j];
    }
  }

  /**
   * `createTileState` has one entry per non-zero number, keyed by that number, and every entry
   * is the fresh tile of a cell holding its number.
   */
  lemma TileMapEntries(board: Board, tileSize: int)
    ensures TileMap(board, tileSize).Keys == NonZeroNumbers(board)
    ensures WellKeyed(TileMap(board, tileSize))
    ensures forall k :: k in TileMap(board, tileSize) ==>
      var t := TileMap(board, tileSize)[k];
      IsCell(board, t.row, t.column) && board[t.row][t.column] == k
      && t == TileFromData(k, tileSize, t.row, t.column)
  {
    var tiles := BoardTiles(board, tileSize);
    BoardTilesCells(board, tileSize);
    forall k | k in NonZeroNumbers(board) ensures k in Numbers(tiles) {
      var r, c :| 0 <= r < |board| && 0 <= c < |board[r]| && board[r][c] != 0 && board[r][c] == k;
      assert TileFromData(k, tileSize, r, c) in tiles;
    }
    forall k | k in Numbers(tiles) ensures k in NonZeroNumbers(board) {
      var t :| t in tiles && t.number == k;
      assert board[t.row][t.column] == k;
    }
  }

  /**
   * With distinct non-zero numbers, the tile filed under the number of cell (r, c) is the fresh
   * tile for that cell: X = c * tileSize, Y = r * tileSize, both sides tileSize, not dragging,
   * no drag-start values, column c and row r.
   */
  lemma TileMapCells(board: Board, tileSize: int)
    requires DistinctNonZero(board)
    ensures forall r, c :: IsCell(board, r, c) && board[r][c] != 0 ==>
      board[r][c] in TileMap(board, tileSize)
      && TileMap(board, tileSize)[board[r][c]] == TileFromData(board[r][c], tileSize, r, c)
  {
    TileMapEntries(board, tileSize);
    var m := TileMap(board, tileSize);
    forall r, c | IsCell(board, r, c) && board[r][c] != 0
      ensures board[r][c] in m && m[board[r][c]] == TileFromData(board[r][c], tileSize, r, c)
    {
      assert board[r][c] in NonZeroNumbers(board);
      var t := m[board[r][c]];
      assert IsCell(board, t.row, t.column) && board[t.row][t.column] == board[r][c];
    }
  }

  /** Cell (r, c) of the tile `t`. */
  predicate At(t: Tile, r: int, c: int)
  {
    t.row == r && t.column == c
  }

  /**
   * `_.find(tiles, {row, column})` then its number, or 0 when no tile is there: the number of the
   * first tile at (r, c), and 0 when there is none.
   */
  function CellNumber(tiles: seq<Tile>, r: int, c: int): (n: int)
    ensures (forall t :: t in tiles ==> !At(t, r, c)) ==> n == 0
    ensures (exists t :: t in tiles && At(t, r, c)) ==>
      exists i :: 0 <= i < |tiles| && At(tiles[i], r, c) && n == tiles[i].number
        && forall j :: 0 <= j < i ==> !At(tiles[j], r, c)
    decreases |tiles|
  {
    if |tiles| == 0 then 0
    else if At(tiles[0], r, c) then tiles[0].number
    else
      var n := CellNumber(tiles[1..], r, c);
      assert forall t :: t in tiles && t != tiles[0] ==> t in tiles[1..];
      if exists t :: t in tiles && At(t, r, c) then
        var i :| 0 <= i < |tiles[1..]| && At(tiles[1..][i], r, c) && n == tiles[1..][i].number
          && forall j :: 0 <= j < i ==> !At(tiles[1..][j], r, c);
        assert At(tiles[i + 1], r, c) && n == tiles[i + 1].number;
        assert forall j :: 1 <= j < i + 1 ==> tiles[j] == tiles[1..][j - 1];
        n
      else n
  }

  /** The grid index a tile occupies along `axis`: its column for X, its row for Y. */
  function GridIndex(t: Tile, axis: Axis): int
  {
    if axis == X then t.column else t.row
  }

  /** `Math.max` over the tiles' grid indices along `axis`. */
  function MaxIndex(tiles: seq<Tile>, axis: Axis): (r: int)
    requires |tiles| > 0
    ensures forall t :: t in tiles ==> GridIndex(t, axis) <= r
    ensures exists t :: t in tiles && GridIndex(t, axis) == r
    decreases |tiles|
  {
    if |tiles| == 1 then GridIndex(tiles[0], axis)
    else
      var rest := MaxIndex(tiles[1..], axis);
      assert forall t :: t in tiles && t != tiles[0] ==> t in tiles[1..];
      if GridIndex(tiles[0], axis) < rest then rest else GridIndex(tiles[0], axis)
  }

  /** Element `i` of lodash's `_.range(0, n)`, which counts down when `n` is negative. */
  function RangeAt(n: int, i: int): int
  {
    if n >= 0 then i else -i
  }

  /**
   * `getBoardModelFromTileData`: max row + 1 rows of max column + 1 cells, cell (r, c) holding the
   * number of the first tile (in key order) at that position, or 0. An empty map would make
   * `Math.max` yield -Infinity and `_.range` fail, hence the precondition.
   */
  function BoardModel(m: map<int, Tile>): (b: Board)
    requires WellKeyed(m) && |m| > 0
    ensures |b| == Abs(MaxIndex(TileArray(m), Y) + 1)
    ensures forall r :: 0 <= r < |b| ==> |b[r]| == Abs(MaxIndex(TileArray(m), X) + 1)
    ensures forall r, c :: IsCell(b, r, c) ==>
      b[r][c] == CellNumber(TileArray(m), RangeAt(MaxIndex(TileArray(m), Y) + 1, r),
                            RangeAt(MaxIndex(TileArray(m), X) + 1, c))
  {
    var tiles := TileArray(m);
    var numberOfColumns := MaxIndex(tiles, X) + 1;
    var numberOfRows := MaxIndex(tiles, Y) + 1;
    seq(Abs(numberOfRows), r requires 0 <= r < Abs(numberOfRows) =>
      seq(Abs(numberOfColumns), c requires 0 <= c < Abs(numberOfColumns) =>
        CellNumber(tiles, RangeAt(numberOfRows, r), RangeAt(numberOfColumns, c))))
  }

  /** Every row of `board` has `columns` cells. */
  predicate Rectangular(board: Board, columns: int)
  {
    forall r :: 0 <= r < |board| ==> |board[r]| == columns
  }

  /** Some cell of `row` holds a tile. */
  predicate HoldsTile(row: seq<int>)
  {
    exists c :: 0 <= c < |row| && row[c] != 0
  }

  /** Some row of `board` holds a tile in column `c`. */
  predicate ColumnHoldsTile(board: Board, c: int)
  {
    exists r :: 0 <= r < |board| && 0 <= c < |board[r]| && board[r][c] != 0
  }

  /** Every tile of `tiles` sits in a cell holding its number, and every tile-holding cell has one. */
  ghost predicate ListsCells(board: Board, tiles: seq<Tile>)
  {
    (forall t :: t in tiles ==> IsCell(board, t.row, t.column) && board[t.row][t.column] == t.number)
    && forall r, c :: IsCell(board, r, c) && board[r][c] != 0 ==> exists t :: t in tiles && At(t, r, c)
  }

  /** The array of the map built from a board with distinct numbers lists its cells. */
  lemma TileArrayCells(board: Board, tileSize: int)
    requires DistinctNonZero(board)
    ensures WellKeyed(TileMap(board, tileSize))
    ensures ListsCells(board, TileArray(TileMap(board, tileSize)))
  {
    var m := TileMap(board, tileSize);
    TileMapEntries(board, tileSize);
    TileMapCells(board, tileSize);
    var tiles := TileArray(m);
    forall t | t in tiles ensures IsCell(board, t.row, t.column) && board[t.row][t.column] == t.number {
      assert t.number in m && m[t.number] == t;
    }
    forall r, c | IsCell(board, r, c) && board[r][c] != 0 ensures exists t :: t in tiles && At(t, r, c) {
      assert m[board[r][c]] in tiles && At(m[board[r][c]], r, c);
    }
  }

  /** Looking up a cell among tiles that list the board's cells gives the cell's number. */
  lemma CellsAgree(board: Board, tiles: seq<Tile>, r: int, c: int)
    requires ListsCells(board, tiles) && IsCell(board, r, c)
    ensures CellNumber(tiles, r, c) == board[r][c]
  {
    if exists t :: t in tiles && At(t, r, c) {
      var i :| 0 <= i < |tiles| && At(tiles[i], r, c) && CellNumber(tiles, r, c) == tiles[i].number
        && forall j :: 0 <= j < i ==> !At(tiles[j], r, c);
      assert tiles[i] in tiles;
    }
  }

  /** The largest row of tiles listing a board whose last row holds a tile is the last row. */
  lemma MaxRowIsLast(board: Board, tiles: seq<Tile>)
    requires |board| > 0 && ListsCells(board, tiles) && HoldsTile(board[|board| - 1])
    ensures |tiles| > 0 && MaxIndex(tiles, Y) == |board| - 1
  {
    var c :| 0 <= c < |board[|board| - 1]| && board[|board| - 1][c] != 0;
    assert IsCell(board, |board| - 1, c);
    var t :| t in tiles && At(t, |board| - 1, c);
  }

  /** The largest column of tiles listing a rectangular board whose last column holds a tile. */
  lemma MaxColumnIsLast(board: Board, columns: int, tiles: seq<Tile>)
    requires columns > 0 && Rectangular(board, columns) && ListsCells(board, tiles)
    requires ColumnHoldsTile(board, columns - 1)
    ensures |tiles| > 0 && MaxIndex(tiles, X) == columns - 1
  {
    var r :| 0 <= r < |board| && 0 <= columns - 1 < |board[r]| && board[r][columns - 1] != 0;
    assert IsCell(board, r, columns - 1);
    var t :| t in tiles && At(t, r, columns - 1);
  }

  /**
   * The two conversions are inverse: a rectangular board with distinct non-zero numbers, whose
   * last row and last column each hold a tile, comes back unchanged from `createTileState`
   * followed by `getBoardModelFromTileData`, whatever the tile size.
   */
  lemma BoardRoundTrip(board: Board, columns: int, tileSize: int)
    requires |board| > 0 && columns > 0 && Rectangular(board, columns)
    requires DistinctNonZero(board)
    requires HoldsTile(board[|board| - 1]) && ColumnHoldsTile(board, columns - 1)
    ensures WellKeyed(TileMap(board, tileSize)) && |TileMap(board, tileSize)| > 0
    ensures BoardModel(TileMap(board, tileSize)) == board
  {
    TileArrayCells(board, tileSize);
    ModelOfListedCells(board, columns, TileMap(board, tileSize));
  }

  /** A tile map whose tiles are exactly the board's tiles gives the board back. */
  lemma ModelOfListedCells(board: Board, columns: int, m: map<int, Tile>)
    requires |board| > 0 && columns > 0 && Rectangular(board, columns)
    requires HoldsTile(board[|board| - 1]) && ColumnHoldsTile(board, columns - 1)
    requires WellKeyed(m) && ListsCells(board, TileArray(m))
    ensures |m| > 0 && BoardModel(m) == board
  {
    var tiles := TileArray(m);
    MaxRowIsLast(board, tiles);
    MaxColumnIsLast(board, columns, tiles);
    var b := BoardModel(m);
    assert |b| == |board|;
    forall r | 0 <= r < |b| ensures b[r] == board[r] {
      assert |b[r]| == |board[r]|;
      forall c | 0 <= c < |b[r]| ensures b[r][c] == board[r][c] {
        CellsAgree(board, tiles, r, c);
      }
    }
  }
}
