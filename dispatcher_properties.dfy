/**
 * What a drag resolution promises: the X axis has priority, every record moves its tile along at
 * most one axis, and on a board at rest every tile stays between the walls and moves no further
 * than the drag, in the drag's direction.
 */
module DispatcherProperties {
  import opened Wrappers
  import opened Tiles
  import opened RectangleGeometry
  import opened NeighbourSelection
  import opened PushResolver
  import opened AxisDispatcher

  /** Y is consulted only when the X phase changes no tile's X; when it does, its result is final. */
  lemma XHasPriority(info: DragMoveInfo, m: map<int, Tile>, dims: BoardDimensions)
    requires WellKeyed(m) && info.number in m
    ensures XValuesChanged(XPhase(info, m, dims), m) ==> DragResolution(info, m, dims) == XPhase(info, m, dims)
    ensures XValuesChanged(DragResolution(info, m, dims), m) <==> XValuesChanged(XPhase(info, m, dims), m)
  {
    var r := DragResolution(info, m, dims);
    if !XValuesChanged(XPhase(info, m, dims), m) && r.Some? {
      forall i | 0 <= i < |r.value.acc| ensures !XDiffers(r.value.acc[i], m) {
        assert r.value.acc[i] in r.value.acc;
      }
    }
  }

  /** A result that moves some tile on Y comes from a non-zero Y difference after an X phase that changed nothing. */
  lemma YMovesOnlyAfterStillX(info: DragMoveInfo, m: map<int, Tile>, dims: BoardDimensions, rec: Record)
    requires WellKeyed(m) && info.number in m
    requires DragResolution(info, m, dims).Some? && rec in DragResolution(info, m, dims).value.acc
    requires rec.newY != Some(m[rec.number].y)
    ensures !XValuesChanged(XPhase(info, m, dims), m) && info.yDifference != 0
  {
    XPhaseComplete(info, m, dims);
  }

  // ----- a board at rest -----

  /** The wall the resolver is given on `axis`: lines 35-36. */
  function Wall(dims: BoardDimensions, axis: Axis): int
  {
    if axis == X then dims.tileSize * dims.numberOfColumns else dims.tileSize * dims.numberOfRows
  }

  /** Equal squares under their own numbers, inside both walls, no two overlapping. */
  predicate BoardAtRest(m: map<int, Tile>, dims: BoardDimensions)
  {
    WellKeyed(m) && dims.tileSize > 0
    && (forall k :: k in m ==>
          Sized(m[k], dims.tileSize)
          && InsideWalls(m[k], dims.tileSize, Wall(dims, X), X) && InsideWalls(m[k], dims.tileSize, Wall(dims, Y), Y))
    && (forall k1, k2 :: k1 in m && k2 in m && k1 != k2 ==> !Intersects(MinMax(m[k1]), MinMax(m[k2])))
  }

  /** `p` lies between `start` and `start + difference`. */
  predicate Between(p: int, start: int, difference: int)
  {
    if difference >= 0 then start <= p <= start + difference else start + difference <= p <= start
  }

  /** The candidates of a tile are other board entries stored under their own numbers, strictly ahead of it. */
  lemma CandidatesFromBoard(m: map<int, Tile>, tileSize: int, n: int, mode: Mode, axis: Axis)
    requires WellKeyed(m) && n in m
    ensures n in Numbers(TileArray(m))
    ensures forall t :: t in [m[n]] + TilesInFront(n, TileArray(m), tileSize, mode, axis) ==> t.number in m && m[t.number] == t
    ensures forall c :: c in TilesInFront(n, TileArray(m), tileSize, mode, axis) ==> c.number != n && Ahead(m[n], c, mode, axis)
  {
    var tiles := TileArray(m);
    ArrayNumbers(m);
    FindMember(tiles, m[n]);
    var cands := TilesInFront(n, tiles, tileSize, mode, axis);
    forall t | t in [m[n]] + cands ensures t.number in m && m[t.number] == t {
      if t != m[n] { assert t in cands; }
    }
    forall c | c in cands ensures c.number != n && Ahead(m[n], c, mode, axis) {
      assert InFront(m[n], c, tileSize, mode, axis);
    }
  }

  /** Board entries stored under their own numbers, all strictly ahead of another entry, are at rest. */
  lemma RestingFromEntries(m: map<int, Tile>, dims: BoardDimensions, rect: Tile, cands: seq<Tile>, mode: Mode, axis: Axis)
    requires BoardAtRest(m, dims)
    requires forall t :: t in [rect] + cands ==> t.number in m && m[t.number] == t
    requires forall c :: c in cands ==> c.number != rect.number && Ahead(rect, c, mode, axis)
    ensures Resting(rect, cands, dims.tileSize, Wall(dims, axis), mode, axis)
  {
    var all := [rect] + cands;
    forall t | t in all ensures Sized(t, dims.tileSize) && InsideWalls(t, dims.tileSize, Wall(dims, axis), axis) {
      assert m[t.number] == t;
    }
    forall c | c in cands ensures !Intersects(MinMax(rect), MinMax(c)) {
      assert c in all && rect in all;
      assert m[c.number] == c && m[rect.number] == rect;
    }
    forall c, e | c in cands && e in cands && c != e ensures !Intersects(MinMax(c), MinMax(e)) {
      assert c in all && e in all;
      assert m[c.number] == c && m[e.number] == e;
    }
    forall a, b | a in all && b in all && a.number == b.number ensures a == b {
      assert m[a.number] == a && m[b.number] == b;
    }
  }

  /** The dragged tile and its candidates, taken from a board at rest, are at rest. */
  lemma RestingFromBoard(m: map<int, Tile>, dims: BoardDimensions, n: int, mode: Mode, axis: Axis)
    requires BoardAtRest(m, dims) && n in m
    ensures n in Numbers(TileArray(m))
    ensures Resting(m[n], TilesInFront(n, TileArray(m), dims.tileSize, mode, axis), dims.tileSize, Wall(dims, axis), mode, axis)
    ensures forall t :: t in [m[n]] + TilesInFront(n, TileArray(m), dims.tileSize, mode, axis) ==> t.number in m && m[t.number] == t
  {
    CandidatesFromBoard(m, dims.tileSize, n, mode, axis);
    RestingFromEntries(m, dims, m[n], TilesInFront(n, TileArray(m), dims.tileSize, mode, axis), mode, axis);
  }

  /** A record placed against a list of board tiles is placed against the board's own entry. */
  lemma PlacedOnBoard(rec: Record, tiles: seq<Tile>, m: map<int, Tile>, axis: Axis, lo: int, hi: int, tileSize: int, wall: int)
    requires Placed(rec, tiles, axis, lo, hi, tileSize, wall)
    requires forall t :: t in tiles ==> t.number in m && m[t.number] == t
    ensures rec.number in m && Position(rec, axis).Some? && Position(rec, Other(axis)).None?
    ensures Coord(m[rec.number], axis) + lo <= Position(rec, axis).value <= Coord(m[rec.number], axis) + hi
    ensures 0 <= Position(rec, axis).value && Position(rec, axis).value + tileSize <= wall
  {
    var t := Find(tiles, rec.number).value;
    assert t in tiles;
  }

  /**
   * `rec` sets the `axis` coordinate of a board tile to a position inside the walls, between the
   * tile's coordinate and that coordinate plus `difference`.
   */
  predicate AxisPlaced(rec: Record, m: map<int, Tile>, dims: BoardDimensions, difference: int, axis: Axis)
  {
    rec.number in m && Position(rec, axis).Some?
    && Between(Position(rec, axis).value, Coord(m[rec.number], axis), difference)
    && 0 <= Position(rec, axis).value && Position(rec, axis).value + dims.tileSize <= Wall(dims, axis)
  }

  /** Every record an attempt returns moves a tile of the board along `axis`, inside the walls, by at most the difference. */
  lemma AttemptPlaced(m: map<int, Tile>, dims: BoardDimensions, n: int, difference: int, axis: Axis)
    requires BoardAtRest(m, dims) && n in m
    ensures m[n] in TileArray(m)
    ensures var r := AxisAttempt(m[n], difference, TileArray(m), Wall(dims, axis), dims.tileSize, axis);
      r.Some? ==> forall rec :: rec in r.value.acc ==>
        AxisPlaced(rec, m, dims, difference, axis) && Position(rec, Other(axis)).None?
  {
    var tiles := TileArray(m);
    ArrayNumbers(m);
    var tileSize := dims.tileSize;
    var wall := Wall(dims, axis);
    var r := AxisAttempt(m[n], difference, tiles, wall, tileSize, axis);
    if difference > 0 {
      RestingFromBoard(m, dims, n, Forward, axis);
      var cands := TilesInFront(n, tiles, tileSize, Forward, axis);
      var p := PushForward(m[n], difference, cands, wall, tileSize, axis);
      assert r == Some(p);
      if difference <= tileSize {
        ForwardPlaced(m, dims, n, difference, axis);
      }
    } else if difference < 0 {
      RestingFromBoard(m, dims, n, Reverse, axis);
      var cands := TilesInFront(n, tiles, tileSize, Reverse, axis);
      var p := PushBackward(m[n], difference, cands, wall, tileSize, axis);
      assert r == Some(p);
      if -tileSize <= difference {
        BackwardPlaced(m, dims, n, difference, axis);
      }
    }
  }

  /** Every record of a forward push that starts from a board at rest is placed on that board. */
  lemma ForwardPlaced(m: map<int, Tile>, dims: BoardDimensions, n: int, difference: int, axis: Axis)
    requires BoardAtRest(m, dims) && n in m && 0 < difference <= dims.tileSize
    ensures var cands := TilesInFront(n, TileArray(m), dims.tileSize, Forward, axis);
      forall rec :: rec in PushForward(m[n], difference, cands, Wall(dims, axis), dims.tileSize, axis).acc ==>
        AxisPlaced(rec, m, dims, difference, axis)
  {
    var tiles := TileArray(m);
    ArrayNumbers(m);
    var tileSize := dims.tileSize;
    var wall := Wall(dims, axis);
    RestingFromBoard(m, dims, n, Forward, axis);
    var cands := TilesInFront(n, tiles, tileSize, Forward, axis);
    var p := PushForward(m[n], difference, cands, wall, tileSize, axis);
    forall rec | rec in p.acc ensures AxisPlaced(rec, m, dims, difference, axis) {
      PlacedOnBoard(rec, [m[n]] + cands, m, axis, 0, difference, tileSize, wall);
    }
  }

  /** Every record of a backward push that starts from a board at rest is placed on that board. */
  lemma BackwardPlaced(m: map<int, Tile>, dims: BoardDimensions, n: int, difference: int, axis: Axis)
    requires BoardAtRest(m, dims) && n in m && -dims.tileSize <= difference < 0
    ensures var cands := TilesInFront(n, TileArray(m), dims.tileSize, Reverse, axis);
      forall rec :: rec in PushBackward(m[n], difference, cands, Wall(dims, axis), dims.tileSize, axis).acc ==>
        AxisPlaced(rec, m, dims, difference, axis)
  {
    var tiles := TileArray(m);
    ArrayNumbers(m);
    var tileSize := dims.tileSize;
    var wall := Wall(dims, axis);
    RestingFromBoard(m, dims, n, Reverse, axis);
    var cands := TilesInFront(n, tiles, tileSize, Reverse, axis);
    var p := PushBackward(m[n], difference, cands, wall, tileSize, axis);
    forall rec | rec in p.acc ensures AxisPlaced(rec, m, dims, difference, axis) {
      PlacedOnBoard(rec, [m[n]] + cands, m, axis, difference, 0, tileSize, wall);
    }
  }

  /** Filling, record by record: the number and the other coordinate are kept, `key` comes from the board. */
  lemma FillByIndex(result: Option<Push>, m: map<int, Tile>, key: Axis)
    requires WellKeyed(m) && Numbers(TileArray(m)) == m.Keys
    requires result.Some? ==> forall rec :: rec in result.value.acc ==> rec.number in m
    ensures var r := FillIfAny(result, TileArray(m), key);
      r.Some? ==>
        |r.value.acc| == |result.value.acc|
        && forall i :: 0 <= i < |r.value.acc| ==>
             r.value.acc[i].number == result.value.acc[i].number
             && Position(r.value.acc[i], Other(key)) == Position(result.value.acc[i], Other(key))
             && Position(r.value.acc[i], key) == Some(Coord(m[result.value.acc[i].number], key))
  {
    WellKeyedArray(m);
    var r := FillIfAny(result, TileArray(m), key);
    if r.Some? && |result.value.acc| > 0 {
      forall i | 0 <= i < |r.value.acc|
        ensures Position(r.value.acc[i], key) == Some(Coord(m[result.value.acc[i].number], key))
      {
        assert result.value.acc[i] in result.value.acc;
      }
    }
  }

  /**
   * Filling the other coordinate of placed records keeps them placed and puts each tile, on the
   * other axis, exactly where it already is.
   */
  lemma FilledPlaced(result: Option<Push>, m: map<int, Tile>, dims: BoardDimensions, difference: int, axis: Axis)
    requires BoardAtRest(m, dims)
    requires result.Some? ==> forall rec :: rec in result.value.acc ==> rec.number in m && AxisPlaced(rec, m, dims, difference, axis)
    ensures (ArrayNumbers(m);
      var r := FillIfAny(result, TileArray(m), Other(axis));
      r.Some? ==> forall rec :: rec in r.value.acc ==>
        AxisPlaced(rec, m, dims, difference, axis) && AxisPlaced(rec, m, dims, 0, Other(axis)))
  {
    ArrayNumbers(m);
    FillByIndex(result, m, Other(axis));
    var r := FillIfAny(result, TileArray(m), Other(axis));
    if r.Some? {
      forall rec | rec in r.value.acc
        ensures AxisPlaced(rec, m, dims, difference, axis) && AxisPlaced(rec, m, dims, 0, Other(axis))
      {
        var i :| 0 <= i < |r.value.acc| && r.value.acc[i] == rec;
        var src := result.value.acc[i];
        assert src in result.value.acc;
        assert Other(Other(axis)) == axis;
        var t := m[rec.number];
        assert InsideWalls(t, dims.tileSize, Wall(dims, Other(axis)), Other(axis)) by {
          if axis == X { } else { }
        }
      }
    }
  }

  /** Staying put on an axis is within any drag on it. */
  lemma StillIsWithin(rec: Record, m: map<int, Tile>, dims: BoardDimensions, difference: int, axis: Axis)
    requires AxisPlaced(rec, m, dims, 0, axis)
    ensures AxisPlaced(rec, m, dims, difference, axis)
  {
  }

  /** A record that moves a tile within the drag on both axes and keeps it between the walls. */
  predicate MovesWithin(rec: Record, m: map<int, Tile>, info: DragMoveInfo, dims: BoardDimensions)
  {
    AxisPlaced(rec, m, dims, info.xDifference, X) && AxisPlaced(rec, m, dims, info.yDifference, Y)
  }

  /** Every record of the X phase moves its tile within the drag. */
  lemma XPhasePlaced(info: DragMoveInfo, m: map<int, Tile>, dims: BoardDimensions)
    requires BoardAtRest(m, dims) && info.number in m
    ensures var r := XPhase(info, m, dims);
      r.Some? ==> forall rec :: rec in r.value.acc ==>
        AxisPlaced(rec, m, dims, info.xDifference, X) && AxisPlaced(rec, m, dims, 0, Y)
  {
    var n := info.number;
    ArrayNumbers(m);
    AttemptPlaced(m, dims, n, info.xDifference, X);
    var xa := AxisAttempt(m[n], info.xDifference, TileArray(m), Wall(dims, X), dims.tileSize, X);
    assert XPhase(info, m, dims) == FillIfAny(xa, TileArray(m), Y);
    FilledPlaced(xa, m, dims, info.xDifference, X);
  }

  /** Every record of the Y phase, run after an X phase that changed nothing, moves its tile within the drag. */
  lemma YPhasePlaced(info: DragMoveInfo, m: map<int, Tile>, dims: BoardDimensions)
    requires BoardAtRest(m, dims) && info.number in m
    ensures (XPhaseComplete(info, m, dims);
      var r := YPhase(m, YAttempt(info, m, dims, XPhase(info, m, dims)));
      r.Some? ==> forall rec :: rec in r.value.acc ==>
        AxisPlaced(rec, m, dims, info.yDifference, Y) && AxisPlaced(rec, m, dims, 0, X))
  {
    var n := info.number;
    ArrayNumbers(m);
    XPhaseComplete(info, m, dims);
    var xr := XPhase(info, m, dims);
    var ya := YAttempt(info, m, dims, xr);
    if info.yDifference != 0 {
      AttemptPlaced(m, dims, n, info.yDifference, Y);
      assert ya == AxisAttempt(m[n], info.yDifference, TileArray(m), Wall(dims, Y), dims.tileSize, Y);
    } else {
      XPhasePlaced(info, m, dims);
      assert ya == xr;
    }
    assert YPhase(m, ya) == FillIfAny(ya, TileArray(m), X);
    FilledPlaced(ya, m, dims, info.yDifference, Y);
  }

  /**
   * On a board at rest every record of the resolution keeps its tile between the walls and moves it
   * no further than the drag, in the drag's direction, on each axis.
   */
  lemma DragKeepsTilesOnBoard(info: DragMoveInfo, m: map<int, Tile>, dims: BoardDimensions)
    requires BoardAtRest(m, dims) && info.number in m
    ensures var r := DragResolution(info, m, dims);
      r.Some? ==> forall rec :: rec in r.value.acc ==> MovesWithin(rec, m, info, dims)
  {
    var r := DragResolution(info, m, dims);
    XPhaseComplete(info, m, dims);
    var xr := XPhase(info, m, dims);
    if XValuesChanged(xr, m) {
      XPhasePlaced(info, m, dims);
      assert r == xr;
      if r.Some? {
        forall rec | rec in r.value.acc ensures MovesWithin(rec, m, info, dims) {
          StillIsWithin(rec, m, dims, info.yDifference, Y);
        }
      }
    } else {
      YPhasePlaced(info, m, dims);
      assert r == YPhase(m, YAttempt(info, m, dims, xr));
      if r.Some? {
        forall rec | rec in r.value.acc ensures MovesWithin(rec, m, info, dims) {
          StillIsWithin(rec, m, dims, info.xDifference, X);
        }
      }
    }
  }
}
