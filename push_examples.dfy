/**
 * Concrete boards from the project's own test suite, worked through the model: the geometry, the
 * nearest obstacle and the resolvers on short candidate lists, with the numbers the tests expect.
 */
module PushExamples {
  import opened Wrappers
  import opened Tiles
  import opened RectangleGeometry
  import opened NeighbourSelection
  import opened NearestObstacle
  import opened PushResolver

  /** A resting 100 × 100 tile. */
  function Square(number: int, x: int, y: int): Tile
  {
    Tile(number, x, y, 100, 100, false, None, None, None, None, 0, 0)
  }

  // ----- intersection and the nearest obstacle -----

  /** An overlap of one unit on both axes intersects; a gap of one on X does not, whatever Y does. */
  lemma IntersectionExamples()
    ensures Intersects(Box(1, 0, 0, 100, 100), Box(2, 99, 99, 199, 199))
    ensures Intersects(Box(2, 99, 99, 199, 199), Box(1, 0, 0, 100, 100))
    ensures !Intersects(Box(1, 0, 0, 100, 100), Box(2, 101, 50, 201, 150))
    ensures !Intersects(Box(2, 101, 50, 201, 150), Box(1, 0, 0, 100, 100))
  {
  }

  /** `getMaxPointForRectangle(10, 20, 100, 100)` is (110, 120). */
  lemma MaxPointExample()
    ensures MaxPoint(10, 20, 100, 100) == Point(110, 120)
  {
  }

  /** Gaps of 3 and 1 ahead: the nearest obstacle is the second box, at distance 1. */
  lemma SmallestExample()
    ensures Smallest(Box(1, 0, 0, 100, 100), [Box(2, 103, 0, 203, 100), Box(3, 101, 0, 201, 100)], Forward, X)
      == Some(Contact(1, Box(3, 101, 0, 201, 100)))
  {
  }

  // ----- the forward resolver -----

  /** Over one tile size: refused. */
  lemma ForwardOverOneTile()
    ensures PushForward(Square(1, 0, 0), 101, [], 300, 100, X) == Push([], 0)
  {
  }

  /** Flush against the wall: nothing moves. */
  lemma ForwardFlushWithWall()
    ensures PushForward(Square(1, 200, 0), 50, [], 300, 100, X) == Push([], 0)
  {
  }

  /** When the shifted mover hits exactly one candidate, that candidate is the next link of the chain. */
  lemma SingleHitLink(rect: Tile, d: int, candidates: seq<Tile>, tileSize: int, mode: Mode, axis: Axis, next: Tile)
    requires UniqueNumbers(candidates) && next in candidates
    requires IntersectingBoxes(Shift(rect, axis, d), candidates) == [MinMax(next)]
    ensures NextLink(rect, d, candidates, tileSize, mode, axis)
      == Link(Gap(MinMax(rect), MinMax(next), mode, axis), next, TilesInFront(next.number, candidates, tileSize, mode, axis))
  {
    var contact := Smallest(MinMax(rect), [MinMax(next)], mode, axis).value;
    assert contact.box == MinMax(next);
    FindMember(candidates, next);
  }

  /** A mover whose shift hits a lone candidate pushes it, and the candidate has nothing left ahead. */
  lemma LoneLink(rect: Tile, d: int, next: Tile, mode: Mode)
    requires Intersects(MinMax(Shift(rect, X, d)), MinMax(next))
    ensures IntersectingBoxes(Shift(rect, X, d), [next]) == [MinMax(next)]
    ensures NextLink(rect, d, [next], 100, mode, X) == Link(Gap(MinMax(rect), MinMax(next), mode, X), next, [])
  {
    IntersectingBoxesCons(Shift(rect, X, d), next, []);
    SingleHitLink(rect, d, [next], 100, mode, X, next);
    assert [next][1..] == [];
    assert FilterInFront(next, [next], 100, mode, X) == [];
  }

  /** A gap of 49 to a tile flush with the wall: the mover closes the gap and stops. */
  lemma ForwardCloseGap()
    ensures PushForward(Square(1, 51, 0), 50, [Square(2, 200, 0)], 300, 100, X)
      == Push([Record(1, Some(100), None)], 49)
  {
    LoneLink(Square(1, 51, 0), 50, Square(2, 200, 0), Forward);
    assert PushForward(Square(2, 200, 0), 1, [], 300, 100, X) == Push([], 0);
  }

  /** 25 short of the wall at 400, asked for 50: the tile stops at the wall. */
  lemma ForwardClampedAtWall()
    ensures PushForward(Square(3, 275, 0), 50, [], 400, 100, X) == Push([Record(3, Some(300), None)], 25)
  {
  }

  /** Tiles at 150 and 275 against a wall at 400, request 75: the pushed tile clamps at the wall, allowing 50. */
  lemma ForwardPushClampedAtWall()
    ensures PushForward(Square(2, 150, 0), 75, [Square(3, 275, 0)], 400, 100, X)
      == Push([Record(3, Some(300), None), Record(2, Some(200), None)], 50)
  {
    LoneLink(Square(2, 150, 0), 75, Square(3, 275, 0), Forward);
    ForwardClampedAtWall();
  }

  /** 25 short of the wall at 500, asked for 25: the tile goes the whole way. */
  lemma ForwardUpToWall()
    ensures PushForward(Square(4, 375, 0), 25, [], 500, 100, X) == Push([Record(4, Some(400), None)], 25)
  {
  }

  /** Tiles at 250 and 375 with room at the wall at 500, request 50: both move the whole way after a gap of 25. */
  lemma ForwardPushWithRoom()
    ensures PushForward(Square(3, 250, 0), 50, [Square(4, 375, 0)], 500, 100, X)
      == Push([Record(4, Some(400), None), Record(3, Some(300), None)], 50)
  {
    LoneLink(Square(3, 250, 0), 50, Square(4, 375, 0), Forward);
    ForwardUpToWall();
  }

  // ----- the backward resolver -----

  /** At 0, a request of -10 moves nothing. */
  lemma BackwardAtWall()
    ensures PushBackward(Square(1, 0, 0), -10, [], 100, 100, X) == Push([], 0)
  {
  }

  /** At 10, a request of -11 stops at the wall; a request of -5 goes the whole way. */
  lemma BackwardNearWall()
    ensures PushBackward(Square(1, 10, 0), -11, [], 200, 100, X) == Push([Record(1, Some(0), None)], 10)
    ensures PushBackward(Square(1, 10, 0), -5, [], 200, 100, X) == Push([Record(1, Some(5), None)], 5)
  {
  }

  /** 25 and 150 dragged by -50: the neighbour reaches the wall at 0, the mover 100. */
  lemma BackwardSpacedNeighbour()
    ensures PushBackward(Square(2, 150, 0), -50, [Square(1, 25, 0)], 400, 100, X)
      == Push([Record(1, Some(0), None), Record(2, Some(100), None)], 50)
  {
    LoneLink(Square(2, 150, 0), -50, Square(1, 25, 0), Reverse);
    assert PushBackward(Square(1, 25, 0), -25, [], 400, 100, X) == Push([Record(1, Some(0), None)], 25);
  }
}
