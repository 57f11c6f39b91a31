/**
 * Building a new shuffled board: `createArrayOfNumbers` deals the numbers 0 .. n-1 into n cells,
 * the blank (0) at a drawn index and every other cell from a pool of the remaining numbers, and
 * `createBoard` cuts that list into rows. `getRandomNumberWithMaximum(x)` is not modelled: each
 * value it would return is an input, constrained to what it can return.
 */
module BoardSetup {
  import opened TileState
  import opened AxisDispatcher

  /** `_.range(0, n)` for `n >= 0`. */
  function Upto(n: nat): (r: seq<int>)
    ensures |r| == n && forall i :: 0 <= i < n ==> r[i] == i
  {
    seq(n, i => i)
  }

  /** `_.range(1, n)` for `n >= 1`: the pool of non-blank numbers, which together with 0 are 0 .. n-1. */
  function Pool(n: nat): (r: seq<int>)
    requires n >= 1
    ensures |r| == n - 1 && 0 !in r
    ensures multiset(r) + multiset{0} == multiset(Upto(n))
  {
    var r := seq(n - 1, i => i + 1);
    assert Upto(n) == [0] + r;
    r
  }

  /** `splice(k, 1)`: removing entry `k` keeps every other entry, so the multiset loses just it. */
  lemma Splice(s: seq<int>, k: int)
    requires 0 <= k < |s|
    ensures multiset(s[..k] + s[k + 1..]) + multiset{s[k]} == multiset(s)
    ensures forall x :: x in s[..k] + s[k + 1..] ==> x in s
  {
    assert s == s[..k] + [s[k]] + s[k + 1..];
  }

  /** Dealing entry `k` of the pool onto the list keeps the numbers dealt and left together. */
  lemma Deal(numbers: seq<int>, pool: seq<int>, k: int, blank: multiset<int>, all: multiset<int>)
    requires 0 <= k < |pool| && 0 !in pool
    requires multiset(numbers) + multiset(pool) + blank == all
    ensures 0 !in pool[..k] + pool[k + 1..] && pool[k] != 0
    ensures multiset(numbers + [pool[k]]) + multiset(pool[..k] + pool[k + 1..]) + blank == all
  {
    Splice(pool, k);
  }

  /** A value `getRandomNumberWithMaximum(x)` (`Math.floor(Math.random() * x)`) can return. */
  predicate Drawn(r: int, x: int)
  {
    if x > 0 then 0 <= r < x else r == 0
  }

  /**
   * `numbers` holds each of 0 .. total-1 exactly once, and its only 0 is at `blank`.
   */
  predicate Shuffled(numbers: seq<int>, total: int, blank: int)
  {
    |numbers| == total
    && multiset(numbers) == multiset(Upto(|numbers|))
    && forall i :: 0 <= i < |numbers| ==> (numbers[i] == 0 <==> i == blank)
  }

  /**
   * The state of `createArrayOfNumbers` after dealing the first `currentIndex` cells: the dealt
   * numbers, the pool and (while the blank cell is still ahead) the 0 together make up
   * 0 .. total-1; `drawn` draws have been made; and the only 0 dealt is at the blank index.
   */
  ghost predicate Dealing(numbers: seq<int>, pool: seq<int>, drawn: int, currentIndex: int, total: int, blank: int)
  {
    0 <= blank < total
    && 0 <= currentIndex <= total && |numbers| == currentIndex
    && drawn == (if blank < currentIndex then currentIndex - 1 else currentIndex)
    && |pool| == total - 1 - drawn && 0 !in pool
    && multiset(numbers) + multiset(pool) + (if blank < currentIndex then multiset{} else multiset{0})
       == multiset(Upto(total))
    && forall i :: 0 <= i < currentIndex ==> (numbers[i] == 0 <==> i == blank)
  }

  /** Before the first cell, the pool holds 1 .. total-1. */
  lemma DealStart(total: int, blank: int)
    requires 0 <= blank < total
    ensures Dealing([], Pool(total), 0, 0, total, blank)
  {
  }

  /** The blank cell takes 0 and leaves the pool alone. */
  lemma DealBlank(numbers: seq<int>, pool: seq<int>, drawn: int, currentIndex: int, total: int, blank: int)
    requires Dealing(numbers, pool, drawn, currentIndex, total, blank) && currentIndex == blank
    ensures Dealing(numbers + [0], pool, drawn, currentIndex + 1, total, blank)
  {
    assert forall i :: 0 <= i < currentIndex ==> (numbers + [0])[i] == numbers[i];
  }

  /** Any other cell takes pool entry `k`, which is removed from the pool. */
  lemma DealDraw(numbers: seq<int>, pool: seq<int>, drawn: int, currentIndex: int, total: int, blank: int, k: int)
    requires Dealing(numbers, pool, drawn, currentIndex, total, blank)
    requires currentIndex < total && currentIndex != blank && 0 <= k < |pool|
    ensures Dealing(numbers + [pool[k]], pool[..k] + pool[k + 1..], drawn + 1, currentIndex + 1, total, blank)
  {
    Deal(numbers, pool, k, if blank < currentIndex then multiset{} else multiset{0}, multiset(Upto(total)));
    assert forall i :: 0 <= i < currentIndex ==> (numbers + [pool[k]])[i] == numbers[i];
  }

  /** Once every cell is dealt, the pool is empty and the list holds each number once. */
  lemma DealEnd(numbers: seq<int>, pool: seq<int>, drawn: int, total: int, blank: int)
    requires Dealing(numbers, pool, drawn, total, total, blank)
    ensures Shuffled(numbers, total, blank)
  {
    assert pool == [];
  }

  /**
   * `createArrayOfNumbers(numberOfColumns, numberOfRows)`. `blankSpaceIndex` is the first draw,
   * from [0, total - 1); `draws[j]` is the draw made for the j-th non-blank cell, from the pool's
   * length at that point, which is `total - 1 - j` and never 0 when a draw is made. The result
   * holds each of 0 .. total-1 once, its only 0 at the blank index, which is never the last cell.
   */
  method CreateArrayOfNumbers(numberOfColumns: int, numberOfRows: int, blankSpaceIndex: int, draws: seq<int>)
    returns (numbers: seq<int>)
    requires numberOfColumns >= 1 && numberOfRows >= 1
    requires Drawn(blankSpaceIndex, numberOfColumns * numberOfRows - 1)
    requires |draws| == numberOfColumns * numberOfRows - 1
    requires forall j :: 0 <= j < |draws| ==> Drawn(draws[j], |draws| - j)
    ensures Shuffled(numbers, numberOfColumns * numberOfRows, blankSpaceIndex)
    ensures numberOfColumns * numberOfRows >= 2 ==> numbers[|numbers| - 1] != 0
  {
    var totalNumberOfSpaces := numberOfColumns * numberOfRows;
    var listOfNumbers := Pool(totalNumberOfSpaces);
    numbers := [];
    var drawn := 0;
    var currentIndex := 0;
    DealStart(totalNumberOfSpaces, blankSpaceIndex);
    while currentIndex < totalNumberOfSpaces
      invariant Dealing(numbers, listOfNumbers, drawn, currentIndex, totalNumberOfSpaces, blankSpaceIndex)
    {
      if currentIndex == blankSpaceIndex {
        DealBlank(numbers, listOfNumbers, drawn, currentIndex, totalNumberOfSpaces, blankSpaceIndex);
        numbers := numbers + [0];
      } else {
        var randomNumberIndex := draws[drawn];
        var nextNumber := listOfNumbers[randomNumberIndex];
        DealDraw(numbers, listOfNumbers, drawn, currentIndex, totalNumberOfSpaces, blankSpaceIndex, randomNumberIndex);
        listOfNumbers := listOfNumbers[..randomNumberIndex] + listOfNumbers[randomNumberIndex + 1..];
        numbers := numbers + [nextNumber];
        drawn := drawn + 1;
      }
      currentIndex := currentIndex + 1;
    }
    DealEnd(numbers, listOfNumbers, drawn, totalNumberOfSpaces, blankSpaceIndex);
  }

  /** The cells of `board`, row after row. */
  function Flatten(board: seq<seq<int>>): seq<int>
  {
    if |board| == 0 then [] else Flatten(board[..|board| - 1]) + board[|board| - 1]
  }

  /** In the rows of a rectangular board laid end to end, row `r` starts after `r` full rows. */
  lemma {:induction false} FlattenCells(board: seq<seq<int>>, columns: int, r: int, c: int)
    requires forall i :: 0 <= i < |board| ==> |board[i]| == columns
    requires 0 <= r < |board| && 0 <= c < columns
    ensures |Flatten(board)| == CellsIn(|board|, columns)
    ensures CellsIn(r, columns) + c < |Flatten(board)| && Flatten(board)[CellsIn(r, columns) + c] == board[r][c]
    decreases |board|
  {
    var last := |board| - 1;
    var front := board[..last];
    assert forall i :: 0 <= i < last ==> front[i] == board[i];
    if r < last {
      FlattenCells(front, columns, r, c);
    } else if last > 0 {
      FlattenCells(front, columns, 0, 0);
    }
  }

  /** Different cells of a rectangular board sit at different offsets of its rows laid end to end. */
  lemma {:induction false} CellsInInjective(columns: int, r1: nat, c1: int, r2: nat, c2: int)
    requires 0 <= c1 < columns && 0 <= c2 < columns
    requires CellsIn(r1, columns) + c1 == CellsIn(r2, columns) + c2
    ensures r1 == r2 && c1 == c2
    decreases r1
  {
    if r1 > 0 && r2 > 0 {
      CellsInInjective(columns, r1 - 1, c1, r2 - 1, c2);
    }
  }

  /** Row-major layout: cell (r, c) of a rectangular board is entry `r * columns + c` of its rows laid end to end. */
  lemma FlattenRowMajor(board: seq<seq<int>>, columns: int, r: int, c: int)
    requires forall i :: 0 <= i < |board| ==> |board[i]| == columns
    requires 0 <= r < |board| && 0 <= c < columns
    ensures |Flatten(board)| == |board| * columns
    ensures r * columns + c < |Flatten(board)| && Flatten(board)[r * columns + c] == board[r][c]
  {
    FlattenCells(board, columns, r, c);
    CellsInProduct(r, columns);
    CellsInProduct(|board|, columns);
  }

  /** The cells in `n` rows of `columns` cells, counted row by row. */
  function CellsIn(n: nat, columns: int): (cells: int)
    ensures columns >= 0 ==> cells >= 0
  {
    if n == 0 then 0 else columns + CellsIn(n - 1, columns)
  }

  /** Counting the cells row by row gives `n * columns`. */
  lemma {:induction false} CellsInProduct(n: nat, columns: int)
    ensures CellsIn(n, columns) == n * columns
  {
    if n > 0 {
      CellsInProduct(n - 1, columns);
    }
  }

  /** `board` is made of rows of `columns` cells which, followed by `rest`, spell out `numbers`. */
  ghost predicate CutInto(board: seq<seq<int>>, rest: seq<int>, numbers: seq<int>, columns: int)
  {
    (forall i :: 0 <= i < |board| ==> |board[i]| == columns) && Flatten(board) + rest == numbers
  }

  /** `listOfNumbers[0]` then `listOfNumbers.slice(1)`: the front entry moves onto the row. */
  lemma TakeFirst(front: seq<int>, row: seq<int>, rest: seq<int>, numbers: seq<int>)
    requires front + row + rest == numbers && |rest| > 0
    ensures front + (row + [rest[0]]) + rest[1..] == numbers
  {
    assert rest == [rest[0]] + rest[1..];
  }

  /** A finished row of `columns` cells joins the board. */
  lemma CloseRow(board: seq<seq<int>>, row: seq<int>, rest: seq<int>, numbers: seq<int>, columns: int)
    requires forall i :: 0 <= i < |board| ==> |board[i]| == columns
    requires |row| == columns && Flatten(board) + row + rest == numbers
    ensures CutInto(board + [row], rest, numbers, columns)
  {
    assert (board + [row])[..|board|] == board;
  }

  /**
   * `createBoard(numberOfColumns, numberOfRows)`: `numberOfRows` rows of `numberOfColumns` cells,
   * filled row by row from the front of the shuffled list, so the rows laid end to end are that
   * list (`numbers`, which the source does not return).
   */
  method CreateBoard(numberOfColumns: int, numberOfRows: int, blankSpaceIndex: int, draws: seq<int>)
    returns (board: seq<seq<int>>, ghost numbers: seq<int>)
    requires numberOfColumns >= 1 && numberOfRows >= 1
    requires Drawn(blankSpaceIndex, numberOfColumns * numberOfRows - 1)
    requires |draws| == numberOfColumns * numberOfRows - 1
    requires forall j :: 0 <= j < |draws| ==> Drawn(draws[j], |draws| - j)
    ensures Shuffled(numbers, numberOfColumns * numberOfRows, blankSpaceIndex)
    ensures numberOfColumns * numberOfRows >= 2 ==> numbers[|numbers| - 1] != 0
    ensures |board| == numberOfRows
    ensures forall r :: 0 <= r < numberOfRows ==> |board[r]| == numberOfColumns
    ensures Flatten(board) == numbers
  {
    var listOfNumbers := CreateArrayOfNumbers(numberOfColumns, numberOfRows, blankSpaceIndex, draws);
    numbers := listOfNumbers;
    CellsInProduct(numberOfRows, numberOfColumns);
    board := [];
    var r := 0;
    while r < numberOfRows
      invariant 0 <= r <= numberOfRows && |board| == r
      invariant CutInto(board, listOfNumbers, numbers, numberOfColumns)
      invariant |listOfNumbers| == CellsIn(numberOfRows - r, numberOfColumns)
    {
      var row := [];
      var c := 0;
      while c < numberOfColumns
        invariant 0 <= c <= numberOfColumns && |row| == c
        invariant Flatten(board) + row + listOfNumbers == numbers
        invariant |listOfNumbers| == CellsIn(numberOfRows - r, numberOfColumns) - c
      {
        var first := listOfNumbers[0];
        TakeFirst(Flatten(board), row, listOfNumbers, numbers);
        listOfNumbers := listOfNumbers[1..];
        row := row + [first];
        c := c + 1;
      }
      CloseRow(board, row, listOfNumbers, numbers, numberOfColumns);
      board := board + [row];
      r := r + 1;
    }
  }

  /** In a sequence without repeats, every value occurs at most once. */
  lemma {:induction false} NoRepeatsCount(s: seq<int>, v: int)
    requires forall i, j :: 0 <= i < j < |s| ==> s[i] != s[j]
    ensures multiset(s)[v] <= 1
    decreases |s|
  {
    if |s| > 0 {
      var front := s[..|s| - 1];
      assert s == front + [s[|s| - 1]];
      NoRepeatsCount(front, v);
      if s[|s| - 1] == v {
        assert v !in front by {
          forall i | 0 <= i < |front| ensures front[i] != v {
            assert front[i] == s[i];
          }
        }
      }
    }
  }

  /** A value at two positions occurs at least twice. */
  lemma TwiceCount(s: seq<int>, i: int, j: int)
    requires 0 <= i < j < |s| && s[i] == s[j]
    ensures multiset(s)[s[i]] >= 2
  {
    assert s == s[..i] + [s[i]] + s[i + 1..j] + [s[j]] + s[j + 1..];
  }

  /** A shuffled list holds no number twice. */
  lemma ShuffledDistinct(numbers: seq<int>, total: int, blank: int)
    requires Shuffled(numbers, total, blank)
    ensures forall i, j :: 0 <= i < |numbers| && 0 <= j < |numbers| && numbers[i] == numbers[j] ==> i == j
  {
    forall i, j | 0 <= i < |numbers| && 0 <= j < |numbers| && numbers[i] == numbers[j] ensures i == j {
      if i != j {
        NoRepeatsCount(Upto(|numbers|), numbers[i]);
        if i < j { TwiceCount(numbers, i, j); } else { TwiceCount(numbers, j, i); }
      }
    }
  }

  /**
   * A board dealt by `createBoard` with at least two cells comes back unchanged from
   * `createTileState` followed by `getBoardModelFromTileData`: its numbers are distinct and its
   * last cell, which is never the blank, holds a tile in both the last row and the last column.
   */
  lemma NewBoardRoundTrip(board: seq<seq<int>>, numbers: seq<int>, numberOfColumns: int, numberOfRows: int,
                          blankSpaceIndex: int, tileSize: int)
    requires numberOfColumns >= 1 && numberOfRows >= 1 && numberOfColumns * numberOfRows >= 2
    requires Shuffled(numbers, numberOfColumns * numberOfRows, blankSpaceIndex) && numbers[|numbers| - 1] != 0
    requires |board| == numberOfRows
    requires forall r :: 0 <= r < numberOfRows ==> |board[r]| == numberOfColumns
    requires Flatten(board) == numbers
    ensures WellKeyed(TileMap(board, tileSize)) && |TileMap(board, tileSize)| > 0
    ensures BoardModel(TileMap(board, tileSize)) == board
  {
    var last := numberOfRows - 1;
    FlattenCells(board, numberOfColumns, last, numberOfColumns - 1);
    CellsInProduct(numberOfRows, numberOfColumns);
    assert HoldsTile(board[last]);
    assert ColumnHoldsTile(board, numberOfColumns - 1) by {
      assert 0 <= last < |board| && board[last][numberOfColumns - 1] != 0;
    }
    ShuffledDistinct(numbers, numberOfColumns * numberOfRows, blankSpaceIndex);
    forall r1, c1, r2, c2 |
      0 <= r1 < |board| && 0 <= c1 < |board[r1]| && 0 <= r2 < |board| && 0 <= c2 < |board[r2]|
      && board[r1][c1] != 0 && board[r1][c1] == board[r2][c2]
      ensures r1 == r2 && c1 == c2
    {
      FlattenCells(board, numberOfColumns, r1, c1);
      FlattenCells(board, numberOfColumns, r2, c2);
      CellsInInjective(numberOfColumns, r1, c1, r2, c2);
    }
    BoardRoundTrip(board, numberOfColumns, tileSize);
  }

  /**
   * The tile numbers of a dealt board are array indices, 0 .. total-1, so JS lists the tile map's
   * keys in ascending order, the order `TileArray` takes.
   */
  lemma DealtKeysAreIndices(board: seq<seq<int>>, numbers: seq<int>, numberOfColumns: int, numberOfRows: int,
                            blankSpaceIndex: int, tileSize: int)
    requires numberOfColumns >= 1 && numberOfRows >= 1
    requires Shuffled(numbers, numberOfColumns * numberOfRows, blankSpaceIndex)
    requires |board| == numberOfRows
    requires forall r :: 0 <= r < numberOfRows ==> |board[r]| == numberOfColumns
    requires Flatten(board) == numbers
    ensures forall k :: k in TileMap(board, tileSize) ==> 0 < k < numberOfColumns * numberOfRows
  {
    TileMapEntries(board, tileSize);
    forall k | k in NonZeroNumbers(board) ensures 0 < k < numberOfColumns * numberOfRows {
      var r, c :| 0 <= r < |board| && 0 <= c < |board[r]| && board[r][c] != 0 && board[r][c] == k;
      FlattenCells(board, numberOfColumns, r, c);
      var i := CellsIn(r, numberOfColumns) + c;
      assert numbers[i] == k;
      assert k in multiset(Upto(|numbers|));
    }
  }
}
