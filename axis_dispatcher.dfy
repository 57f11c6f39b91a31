/**
 * getWhichRectanglesNeedToMoveAndHowFar and its two helpers: try the X axis first, fall back to Y
 * only when no X record changes a tile's X, and complete each record with the untouched axis.
 */
module AxisDispatcher {
  import opened Wrappers
  import opened Tiles
  import opened Lists
  import opened RectangleGeometry
  import opened NeighbourSelection
  import opened PushResolver

  /** `{number, xDifference, yDifference}` */
  datatype DragMoveInfo = DragMoveInfo(number: int, xDifference: int, yDifference: int)

  /** `{numberOfColumns, numberOfRows, tileSize}` */
  datatype BoardDimensions = BoardDimensions(numberOfColumns: int, numberOfRows: int, tileSize: int)

  // ----- the tile map and `_.map(tileDataMap, tileData => tileData)` -----

  /** Every tile is stored under its own number, as `createTileState` builds the map. */
  predicate WellKeyed(m: map<int, Tile>)
  {
    forall k :: k in m ==> m[k].number == k
  }

  lemma {:induction false} MinimumExists(ks: set<int>)
    requires ks != {}
    ensures exists k :: k in ks && forall j :: j in ks ==> k <= j
    decreases ks
  {
    assert (forall y :: y !in ks) ==> ks == {};
    var x :| x in ks;
    var rest := ks - {x};
    if rest == {} {
      forall j | j in ks ensures x <= j {
        assert j !in rest;
      }
    } else {
      MinimumExists(rest);
      var m :| m in rest && forall j :: j in rest ==> m <= j;
      var k := if x < m then x else m;
      forall j | j in ks ensures k <= j {
        if j != x { assert j in rest; }
      }
      assert k in ks;
    }
  }

  predicate StrictlyIncreasing(s: seq<int>)
  {
    forall i, j :: 0 <= i < j < |s| ==> s[i] < s[j]
  }

  /** `s` lists exactly the members of `ks`. */
  ghost predicate ListsKeys(s: seq<int>, ks: set<int>)
  {
    forall y :: y in s <==> y in ks
  }

  /** Putting the minimum in front of an ascending listing of the rest lists the whole set in ascending order. */
  lemma PrependMinimum(k: int, ks: set<int>, rest: seq<int>)
    requires k in ks && forall j :: j in ks ==> k <= j
    requires |rest| == |ks - {k}| && ListsKeys(rest, ks - {k}) && StrictlyIncreasing(rest)
    ensures |[k] + rest| == |ks| && ListsKeys([k] + rest, ks) && StrictlyIncreasing([k] + rest)
  {
    assert forall i :: 0 <= i < |rest| ==> k < rest[i] by {
      forall i | 0 <= i < |rest| ensures k < rest[i] {
        assert rest[i] in rest;
      }
    }
    var r := [k] + rest;
    forall y ensures y in r <==> y in ks {
      if y in ks && y != k { assert y in ks - {k}; }
    }
    forall i, j | 0 <= i < j < |r| ensures r[i] < r[j] {
      assert r[j] == rest[j - 1];
      if i > 0 { assert r[i] == rest[i - 1]; }
    }
    assert ks == (ks - {k}) + {k};
  }

  /** Integer-like object keys in the order JavaScript enumerates them: ascending. */
  function AscendingKeys(ks: set<int>): (r: seq<int>)
    ensures |r| == |ks| && ListsKeys(r, ks) && StrictlyIncreasing(r)
    decreases ks
  {
    if ks == {} then []
    else
      MinimumExists(ks);
      var k :| k in ks && forall j :: j in ks ==> k <= j;
      var rest := AscendingKeys(ks - {k});
      PrependMinimum(k, ks, rest);
      [k] + rest
  }

  /** The head of an ascending listing is the least key, and its tail lists the remaining keys. */
  lemma AscendingListingSplit(ks: set<int>, s: seq<int>)
    requires ListsKeys(s, ks) && StrictlyIncreasing(s) && |s| > 0
    ensures s[0] in ks && forall j :: j in ks ==> s[0] <= j
    ensures ListsKeys(s[1..], ks - {s[0]}) && StrictlyIncreasing(s[1..])
  {
    assert s[0] in s;
    forall j | j in ks ensures s[0] <= j {
      assert j in s;
      var i :| 0 <= i < |s| && s[i] == j;
      if i > 0 { assert s[0] < s[i]; }
    }
    var tail := s[1..];
    forall y ensures y in tail <==> y in ks - {s[0]} {
      if y in tail {
        var i :| 0 <= i < |tail| && tail[i] == y;
        assert s[i + 1] == y && s[0] < s[i + 1];
      }
      if y in ks - {s[0]} {
        assert y in s;
        var i :| 0 <= i < |s| && s[i] == y;
        assert tail[i - 1] == y;
      }
    }
    forall i, j | 0 <= i < j < |tail| ensures tail[i] < tail[j] {
      assert tail[i] == s[i + 1] && tail[j] == s[j + 1];
    }
  }

  /** Two ascending listings of the same keys are the same sequence. */
  lemma {:induction false} AscendingListingsEqual(ks: set<int>, a: seq<int>, b: seq<int>)
    requires ListsKeys(a, ks) && StrictlyIncreasing(a)
    requires ListsKeys(b, ks) && StrictlyIncreasing(b)
    ensures a == b
    decreases |a|
  {
    if |a| > 0 { assert a[0] in a; }
    if |b| > 0 { assert b[0] in b; }
    if |a| > 0 {
      AscendingListingSplit(ks, a);
      AscendingListingSplit(ks, b);
      assert a[0] <= b[0] && b[0] <= a[0];
      AscendingListingsEqual(ks - {a[0]}, a[1..], b[1..]);
      assert a == [a[0]] + a[1..] && b == [b[0]] + b[1..];
    }
  }

  /** The key listing is the only strictly increasing sequence of the keys. */
  lemma AscendingKeysUnique(ks: set<int>, s: seq<int>)
    requires ListsKeys(s, ks) && StrictlyIncreasing(s)
    ensures AscendingKeys(ks) == s
  {
    AscendingListingsEqual(ks, AscendingKeys(ks), s);
  }

  /** Looking up every key of a listing of a well-keyed map gives each entry, under its own number. */
  lemma ListedEntries(m: map<int, Tile>, ks: seq<int>, r: seq<Tile>)
    requires WellKeyed(m) && ListsKeys(ks, m.Keys)
    requires |r| == |ks| && forall i :: 0 <= i < |ks| ==> ks[i] in m && r[i] == m[ks[i]]
    ensures forall t :: t in r ==> t.number in m && m[t.number] == t
    ensures forall k :: k in m ==> m[k] in r
  {
    forall t | t in r ensures t.number in m && m[t.number] == t {
      var i :| 0 <= i < |r| && r[i] == t;
      assert ks[i] in m && r[i] == m[ks[i]];
      assert m[ks[i]].number == ks[i];
    }
    forall k | k in m ensures m[k] in r {
      assert k in ks;
      var i :| 0 <= i < |ks| && ks[i] == k;
      assert r[i] == m[k];
    }
  }

  /** The tile data as an array, in key order: every entry once, each under its own number. */
  function TileArray(m: map<int, Tile>): (r: seq<Tile>)
    requires WellKeyed(m)
    ensures |r| == |m|
    ensures forall t :: t in r ==> t.number in m && m[t.number] == t
    ensures forall k :: k in m ==> m[k] in r
  {
    var ks := AscendingKeys(m.Keys);
    assert forall i :: 0 <= i < |ks| ==> ks[i] in m by {
      forall i | 0 <= i < |ks| ensures ks[i] in m {
        assert ks[i] in ks;
      }
    }
    var r := seq(|ks|, i requires 0 <= i < |ks| => m[ks[i]]);
    ListedEntries(m, ks, r);
    r
  }

  /** The numbers in the array are the keys, each carried by one tile only. */
  lemma ArrayNumbers(m: map<int, Tile>)
    requires WellKeyed(m)
    ensures UniqueNumbers(TileArray(m))
    ensures Numbers(TileArray(m)) == m.Keys
  {
    var tiles := TileArray(m);
    forall k | k in m ensures k in Numbers(tiles) {
      assert m[k] in tiles;
    }
    forall a, b | a in tiles && b in tiles && a.number == b.number ensures a == b {
      assert m[a.number] == a && m[b.number] == b;
    }
  }

  /** In a well-keyed map, the array holds each tile once, and finding a number yields its entry. */
  lemma WellKeyedArray(m: map<int, Tile>)
    requires WellKeyed(m)
    ensures UniqueNumbers(TileArray(m))
    ensures Numbers(TileArray(m)) == m.Keys
    ensures forall k :: k in m ==> Find(TileArray(m), k) == Some(m[k])
  {
    ArrayNumbers(m);
    forall k | k in m ensures Find(TileArray(m), k) == Some(m[k]) {
      FindMember(TileArray(m), m[k]);
    }
  }

  // ----- mapOtherCoordinateValuesToResults -----

  /** One record completed from the tile data: the `key` coordinate is taken from the tile. */
  function FillRecord(rec: Record, tile: Tile, key: Axis): (r: Record)
    ensures r.number == rec.number
    ensures Position(r, key) == Some(Coord(tile, key)) && Position(r, Other(key)) == Position(rec, Other(key))
  {
    if key == X then Record(rec.number, Some(tile.x), rec.newY)
    else Record(rec.number, rec.newX, Some(tile.y))
  }

  /** Every record is completed from the tile with its number, keeping order and length. */
  function MapOtherCoordinateValues(accResults: seq<Record>, tileDataArray: seq<Tile>, key: Axis): (r: seq<Record>)
    requires forall rec :: rec in accResults ==> rec.number in Numbers(tileDataArray)
    ensures |r| == |accResults|
    ensures forall i :: 0 <= i < |r| ==> r[i].number == accResults[i].number
    ensures forall i :: 0 <= i < |r| ==>
      Position(r[i], key) == Some(Coord(Find(tileDataArray, accResults[i].number).value, key))
      && Position(r[i], Other(key)) == Position(accResults[i], Other(key))
  {
    seq(|accResults|, i requires 0 <= i < |accResults| =>
      FillRecord(accResults[i], Find(tileDataArray, accResults[i].number).value, key))
  }

  /** `if (result && result.acc && result.acc.length)`: fill a non-empty result, leave the rest alone. */
  function FillIfAny(result: Option<Push>, tileDataArray: seq<Tile>, key: Axis): (r: Option<Push>)
    requires result.Some? ==> forall rec :: rec in result.value.acc ==> rec.number in Numbers(tileDataArray)
    ensures r.Some? <==> result.Some?
    ensures r.Some? ==>
      r.value.maximumAllowableMovement == result.value.maximumAllowableMovement && |r.value.acc| == |result.value.acc|
  {
    if result.Some? && |result.value.acc| > 0 then
      Some(Push(MapOtherCoordinateValues(result.value.acc, tileDataArray, key), result.value.maximumAllowableMovement))
    else result
  }

  // ----- checkIfXValuesHaveChanged -----

  /** `newX !== tileDataMap[number].x`; a record without `newX` differs from every tile. */
  predicate XDiffers(rec: Record, m: map<int, Tile>)
    requires rec.number in m
  {
    rec.newX != Some(m[rec.number].x)
  }

  /** Some record of a present result moves its tile on X. */
  predicate XValuesChanged(result: Option<Push>, m: map<int, Tile>)
    requires result.Some? ==> forall rec :: rec in result.value.acc ==> rec.number in m
  {
    result.Some? && exists i :: 0 <= i < |result.value.acc| && XDiffers(result.value.acc[i], m)
  }

  /** The `for` loop with its early `break`. */
  method CheckIfXValuesHaveChanged(xResults: Option<Push>, tileDataMap: map<int, Tile>) returns (somethingHasChanged: bool)
    requires xResults.Some? ==> forall rec :: rec in xResults.value.acc ==> rec.number in tileDataMap
    ensures somethingHasChanged == XValuesChanged(xResults, tileDataMap)
  {
    somethingHasChanged := false;
    if xResults.Some? && |xResults.value.acc| > 0 {
      var acc := xResults.value.acc;
      var i := 0;
      while i < |acc|
        invariant 0 <= i <= |acc|
        invariant !somethingHasChanged
        invariant forall j :: 0 <= j < i ==> !XDiffers(acc[j], tileDataMap)
      {
        var currentResult := acc[i];
        assert currentResult in acc;
        if currentResult.newX != Some(tileDataMap[currentResult.number].x) {
          somethingHasChanged := true;
          break;
        }
        i := i + 1;
      }
    }
  }

  // ----- getWhichRectanglesNeedToMoveAndHowFar -----

  /** One axis: the forward resolver for a positive difference, the backward one for a negative, none for 0. */
  function AxisAttempt(rect: Tile, difference: int, tiles: seq<Tile>, wall: int, tileSize: int, axis: Axis): (r: Option<Push>)
    requires rect in tiles
    ensures r.None? <==> difference == 0
    ensures r.Some? ==> forall rec :: rec in r.value.acc ==> rec.number in Numbers(tiles)
    ensures r.Some? ==> forall rec :: rec in r.value.acc ==> Position(rec, axis).Some? && Position(rec, Other(axis)).None?
  {
    assert rect.number in Numbers(tiles);
    if difference > 0 then
      var inFront := TilesInFront(rect.number, tiles, tileSize, Forward, axis);
      var r := PushForward(rect, difference, inFront, wall, tileSize, axis);
      SubListMembersAll(inFront, tiles);
      NumbersOfMembers([rect] + inFront, tiles);
      Some(r)
    else if difference < 0 then
      var inBack := TilesInFront(rect.number, tiles, tileSize, Reverse, axis);
      var r := PushBackward(rect, difference, inBack, wall, tileSize, axis);
      SubListMembersAll(inBack, tiles);
      NumbersOfMembers([rect] + inBack, tiles);
      Some(r)
    else None
  }

  /** The X attempt with each record's Y filled in: lines 44-54. */
  function XPhase(info: DragMoveInfo, m: map<int, Tile>, dims: BoardDimensions): (r: Option<Push>)
    requires WellKeyed(m) && info.number in m
    ensures r.Some? ==> forall rec :: rec in r.value.acc ==> rec.number in m
  {
    var tiles := TileArray(m);
    ArrayNumbers(m);
    var xResult := AxisAttempt(m[info.number], info.xDifference, tiles, dims.tileSize * dims.numberOfColumns, dims.tileSize, X);
    FillIfAny(xResult, tiles, Y)
  }

  /** Filling a result whose records carry the other coordinate completes every record from its tile. */
  lemma FillCompletes(result: Option<Push>, m: map<int, Tile>, key: Axis)
    requires WellKeyed(m) && Numbers(TileArray(m)) == m.Keys
    requires result.Some? ==> forall rec :: rec in result.value.acc ==> rec.number in m && Position(rec, Other(key)).Some?
    ensures var r := FillIfAny(result, TileArray(m), key);
      r.Some? ==> forall rec :: rec in r.value.acc ==>
        rec.number in m && Position(rec, key) == Some(Coord(m[rec.number], key)) && Position(rec, Other(key)).Some?
  {
    WellKeyedArray(m);
    var tiles := TileArray(m);
    var r := FillIfAny(result, tiles, key);
    if r.Some? && |result.value.acc| > 0 {
      forall rec | rec in r.value.acc
        ensures rec.number in m && Position(rec, key) == Some(Coord(m[rec.number], key)) && Position(rec, Other(key)).Some?
      {
        var i :| 0 <= i < |r.value.acc| && r.value.acc[i] == rec;
        assert result.value.acc[i] in result.value.acc;
      }
    }
  }

  /** The Y attempt of lines 61-67: the X result stands when the Y difference is 0. */
  function YAttempt(info: DragMoveInfo, m: map<int, Tile>, dims: BoardDimensions, xResult: Option<Push>): (r: Option<Push>)
    requires WellKeyed(m) && info.number in m
    requires xResult.Some? ==> forall rec :: rec in xResult.value.acc ==> rec.number in m && rec.newY.Some?
    ensures r.None? <==> info.yDifference == 0 && xResult.None?
    ensures r.Some? ==> forall rec :: rec in r.value.acc ==> rec.number in m && rec.newY.Some?
  {
    if info.yDifference != 0 then
      var tiles := TileArray(m);
      ArrayNumbers(m);
      AxisAttempt(m[info.number], info.yDifference, tiles, dims.tileSize * dims.numberOfRows, dims.tileSize, Y)
    else xResult
  }

  /** Lines 69-71: a non-empty Y result gets each record's X from the tile data. */
  function YPhase(m: map<int, Tile>, yResult: Option<Push>): (r: Option<Push>)
    requires WellKeyed(m)
    requires yResult.Some? ==> forall rec :: rec in yResult.value.acc ==> rec.number in m && rec.newY.Some?
    ensures r.Some? <==> yResult.Some?
    ensures r.Some? ==> forall rec :: rec in r.value.acc ==>
      rec.number in m && rec.newX == Some(m[rec.number].x) && rec.newY.Some?
  {
    ArrayNumbers(m);
    FillCompletes(yResult, m, X);
    FillIfAny(yResult, TileArray(m), X)
  }

  /** The whole dispatch; `None` is `undefined`. */
  function DragResolution(info: DragMoveInfo, m: map<int, Tile>, dims: BoardDimensions): (r: Option<Push>)
    requires WellKeyed(m) && info.number in m
    ensures r.None? <==> info.xDifference == 0 && info.yDifference == 0
    ensures r.Some? ==> forall rec :: rec in r.value.acc ==>
      rec.number in m && rec.newX.Some? && rec.newY.Some?
    ensures r.Some? ==> forall rec :: rec in r.value.acc ==>
      rec.newX == Some(m[rec.number].x) || rec.newY == Some(m[rec.number].y)
  {
    var xResult := XPhase(info, m, dims);
    XPhaseComplete(info, m, dims);
    if XValuesChanged(xResult, m) then xResult
    else YPhase(m, YAttempt(info, m, dims, xResult))
  }

  /** After the X phase every record carries both coordinates, Y being the tile's own. */
  lemma XPhaseComplete(info: DragMoveInfo, m: map<int, Tile>, dims: BoardDimensions)
    requires WellKeyed(m) && info.number in m
    ensures var r := XPhase(info, m, dims);
      r.Some? ==> forall rec :: rec in r.value.acc ==>
        rec.number in m && rec.newX.Some? && rec.newY == Some(m[rec.number].y)
  {
    var tiles := TileArray(m);
    ArrayNumbers(m);
    var xResult := AxisAttempt(m[info.number], info.xDifference, tiles, dims.tileSize * dims.numberOfColumns, dims.tileSize, X);
    FillCompletes(xResult, m, Y);
  }

  /** Lines 44-50 (and 61-67): the resolver for the sign of the difference, on its candidates. */
  method TryAxis(rect: Tile, difference: int, tileDataArray: seq<Tile>, coordinateOfWall: int, tileSize: int,
                 axis: Axis) returns (result: Option<Push>)
    requires rect in tileDataArray
    ensures result == AxisAttempt(rect, difference, tileDataArray, coordinateOfWall, tileSize, axis)
  {
    assert rect.number in Numbers(tileDataArray);
    result := None;
    if difference > 0 {
      var arrayOfRectanglesInFrontOfRectangle := TilesInFront(rect.number, tileDataArray, tileSize, Forward, axis);
      result := Some(PushForward(rect, difference, arrayOfRectanglesInFrontOfRectangle, coordinateOfWall, tileSize, axis));
    } else if difference < 0 {
      var arrayOfRectanglesInBackOfRectangle := TilesInFront(rect.number, tileDataArray, tileSize, Reverse, axis);
      result := Some(PushBackward(rect, difference, arrayOfRectanglesInBackOfRectangle, coordinateOfWall, tileSize, axis));
    }
  }

  /** Lines 52-54 (and 69-71): `result.acc` overwritten with its completed records. */
  method FillResult(result: Option<Push>, tileDataArray: seq<Tile>, key: Axis) returns (filled: Option<Push>)
    requires result.Some? ==> forall rec :: rec in result.value.acc ==> rec.number in Numbers(tileDataArray)
    ensures filled == FillIfAny(result, tileDataArray, key)
  {
    filled := result;
    if result.Some? && |result.value.acc| > 0 {
      filled := Some(result.value.(acc := MapOtherCoordinateValues(result.value.acc, tileDataArray, key)));
    }
  }

  /** The reassignments of `result` and `result.acc`, in the order the source makes them. */
  method GetWhichRectanglesNeedToMoveAndHowFar(dragMoveInfo: DragMoveInfo, tileDataMap: map<int, Tile>,
                                               boardDimensions: BoardDimensions) returns (result: Option<Push>)
    requires WellKeyed(tileDataMap) && dragMoveInfo.number in tileDataMap
    ensures result == DragResolution(dragMoveInfo, tileDataMap, boardDimensions)
  {
    var tileSize := boardDimensions.tileSize;
    var xCoordinateOfWall := tileSize * boardDimensions.numberOfColumns;
    var yCoordinateOfWall := tileSize * boardDimensions.numberOfRows;
    var oldRectanglePositionAndNumber := tileDataMap[dragMoveInfo.number];
    var tileDataArray := TileArray(tileDataMap);
    WellKeyedArray(tileDataMap);

    result := TryAxis(oldRectanglePositionAndNumber, dragMoveInfo.xDifference, tileDataArray, xCoordinateOfWall, tileSize, X);
    result := FillResult(result, tileDataArray, Y);
    XPhaseComplete(dragMoveInfo, tileDataMap, boardDimensions);

    var xValuesHaveChanged := CheckIfXValuesHaveChanged(result, tileDataMap);

    if !xValuesHaveChanged {
      ghost var xResult := result;
      if dragMoveInfo.yDifference != 0 {
        result := TryAxis(oldRectanglePositionAndNumber, dragMoveInfo.yDifference, tileDataArray, yCoordinateOfWall, tileSize, Y);
      }
      assert result == YAttempt(dragMoveInfo, tileDataMap, boardDimensions, xResult);
      result := FillResult(result, tileDataArray, X);
    }
  }
}
