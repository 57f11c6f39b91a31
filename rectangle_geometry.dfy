/**
 * Axis-aligned boxes: getMinMaxXandYForRect, getMaxPointForRectangle, doRectanglesIntersect and
 * getRectanglesThatRectangleIntersectsWith.
 */
module RectangleGeometry {
  import opened Tiles
  import opened Lists

  /** `{number, minX, minY, maxX, maxY}` */
  datatype Box = Box(number: int, minX: int, minY: int, maxX: int, maxY: int)

  /** `{x, y}` */
  datatype Point = Point(x: int, y: int)

  /** getMinMaxXandYForRect: the box covered by a tile, its number carried along. */
  function MinMax(t: Tile): (b: Box)
    ensures b.number == t.number
    ensures b.minX == t.x && b.minY == t.y
    ensures b.maxX - b.minX == t.width && b.maxY - b.minY == t.height
  {
    Box(t.number, t.x, t.y, t.x + t.width, t.y + t.height)
  }

  /** The low and high edge of a box on one axis. */
  function Low(b: Box, axis: Axis): int
  {
    if axis == X then b.minX else b.minY
  }

  function High(b: Box, axis: Axis): int
  {
    if axis == X then b.maxX else b.maxY
  }

  /** getMaxPointForRectangle: the corner opposite to (x, y). */
  function MaxPoint(x: int, y: int, height: int, width: int): (p: Point)
    ensures p.x - x == width && p.y - y == height
  {
    Point(x + width, y + height)
  }

  /**
   * doRectanglesIntersect: the boxes are NOT separated, where a difference of 0 already counts as
   * separated, so boxes that only touch do not intersect.
   */
  predicate Intersects(rect1: Box, rect2: Box)
  {
    var differenceX1 := rect2.minX - rect1.maxX;
    var differenceY1 := rect2.minY - rect1.maxY;
    var differenceX2 := rect1.minX - rect2.maxX;
    var differenceY2 := rect1.minY - rect2.maxY;
    !(differenceX1 >= 0 || differenceY1 >= 0 || differenceX2 >= 0 || differenceY2 >= 0)
  }

  /** Both open extents overlap on both axes. */
  lemma IntersectsIffOverlap(a: Box, b: Box)
    ensures Intersects(a, b) <==>
      (a.minX < b.maxX && b.minX < a.maxX && a.minY < b.maxY && b.minY < a.maxY)
  {
  }

  lemma IntersectsSymmetric(a: Box, b: Box)
    ensures Intersects(a, b) == Intersects(b, a)
  {
  }

  /** Touching along X (`a.maxX == b.minX`) is not an intersection. */
  lemma TouchingDoesNotIntersect(a: Box, b: Box)
    requires a.maxX == b.minX
    ensures !Intersects(a, b) && !Intersects(b, a)
  {
  }

  /** A box with positive width and height intersects an identical copy of itself. */
  lemma PositiveBoxIntersectsItself(t: Tile)
    requires t.width > 0 && t.height > 0
    ensures Intersects(MinMax(t), MinMax(t))
  {
  }

  /** The maximum point of a tile is the max corner of its box. */
  lemma MaxPointIsBoxCorner(t: Tile)
    ensures MaxPoint(t.x, t.y, t.height, t.width) == Point(MinMax(t).maxX, MinMax(t).maxY)
  {
  }

  /** Shifting a tile along an axis shifts its box on that axis only. */
  lemma ShiftMovesBox(t: Tile, axis: Axis, d: int)
    ensures Low(MinMax(Shift(t, axis, d)), axis) == Low(MinMax(t), axis) + d
    ensures High(MinMax(Shift(t, axis, d)), axis) == High(MinMax(t), axis) + d
    ensures Low(MinMax(Shift(t, axis, d)), Other(axis)) == Low(MinMax(t), Other(axis))
    ensures High(MinMax(Shift(t, axis, d)), Other(axis)) == High(MinMax(t), Other(axis))
  {
  }

  /** `rectangles.map(getMinMaxXandYForRect)` */
  function Boxes(s: seq<Tile>): (r: seq<Box>)
    ensures |r| == |s| && forall i :: 0 <= i < |s| ==> r[i] == MinMax(s[i])
  {
    seq(|s|, i requires 0 <= i < |s| => MinMax(s[i]))
  }

  /** `_.filter(boxes, b => doRectanglesIntersect(probe, b))` */
  function FilterIntersecting(probe: Box, boxes: seq<Box>): (r: seq<Box>)
    ensures SubList(r, boxes)
    ensures forall b :: b in r ==> Intersects(probe, b)
    ensures forall b :: b in boxes && Intersects(probe, b) ==> b in r
  {
    if |boxes| == 0 then []
    else if Intersects(probe, boxes[0]) then [boxes[0]] + FilterIntersecting(probe, boxes[1..])
    else FilterIntersecting(probe, boxes[1..])
  }

  /**
   * getRectanglesThatRectangleIntersectsWith: the boxes of the candidates that intersect the box of
   * `rectangle`, in candidate order.
   */
  function IntersectingBoxes(rectangle: Tile, candidates: seq<Tile>): (r: seq<Box>)
    ensures SubList(r, Boxes(candidates)) && |r| <= |candidates|
    ensures forall b :: b in r ==> Intersects(MinMax(rectangle), b)
    ensures forall b :: b in r ==> exists t :: t in candidates && MinMax(t) == b
    ensures forall t :: t in candidates && Intersects(MinMax(rectangle), MinMax(t)) ==> MinMax(t) in r
  {
    var r := FilterIntersecting(MinMax(rectangle), Boxes(candidates));
    SubListLength(r, Boxes(candidates));
    forall b | b in r ensures exists t :: t in candidates && MinMax(t) == b {
      SubListMembers(r, Boxes(candidates), b);
      var i :| 0 <= i < |candidates| && Boxes(candidates)[i] == b;
      assert candidates[i] in candidates;
    }
    forall t | t in candidates && Intersects(MinMax(rectangle), MinMax(t)) ensures MinMax(t) in r {
      var i :| 0 <= i < |candidates| && candidates[i] == t;
      assert Boxes(candidates)[i] == MinMax(t);
    }
    r
  }

  /** The intersecting boxes of a list are those of its head, if it is hit, followed by those of its tail. */
  lemma IntersectingBoxesCons(rectangle: Tile, t: Tile, rest: seq<Tile>)
    ensures IntersectingBoxes(rectangle, [t] + rest)
      == (if Intersects(MinMax(rectangle), MinMax(t)) then [MinMax(t)] else []) + IntersectingBoxes(rectangle, rest)
  {
    assert Boxes([t] + rest) == [MinMax(t)] + Boxes(rest);
    assert ([MinMax(t)] + Boxes(rest))[1..] == Boxes(rest);
  }
}
