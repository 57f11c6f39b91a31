/**
 * getRectanglesThatArePushedForward and getRectanglesThatArePushedBackwards: the recursive chain walk
 * that decides how far a dragged tile, and every tile it pushes, may move along one axis.
 */
module PushResolver {
  import opened Wrappers
  import opened Tiles
  import opened Lists
  import opened RectangleGeometry
  import opened NeighbourSelection
  import opened NearestObstacle

  /** `{acc, maximumAllowableMovement}` */
  datatype Push = Push(acc: seq<Record>, maximumAllowableMovement: int)

  /** Every member of `a` is a member of `b`, so the numbers of `a` are numbers of `b`. */
  lemma NumbersOfMembers(a: seq<Tile>, b: seq<Tile>)
    requires forall t :: t in a ==> t in b
    ensures Numbers(a) <= Numbers(b)
  {
  }

  /** The box picked as nearest contact belongs to a candidate, so `_.find` by its number succeeds. */
  lemma ContactNumberIsCandidate(rect: Tile, d: int, candidates: seq<Tile>, mode: Mode, axis: Axis)
    requires |IntersectingBoxes(Shift(rect, axis, d), candidates)| > 0
    ensures Smallest(MinMax(rect), IntersectingBoxes(Shift(rect, axis, d), candidates), mode, axis).Some?
    ensures Smallest(MinMax(rect), IntersectingBoxes(Shift(rect, axis, d), candidates), mode, axis).value.box.number
      in Numbers(candidates)
  {
    var hits := IntersectingBoxes(Shift(rect, axis, d), candidates);
    var contact := Smallest(MinMax(rect), hits, mode, axis).value;
    assert contact.box in hits;
    var t :| t in candidates && MinMax(t) == contact.box;
  }

  /** What a hit hands to the next level: the gap to the nearest contact, its tile, and that tile's candidates. */
  datatype Link = Link(gap: int, next: Tile, ahead: seq<Tile>)

  /**
   * The nearest contact among the boxes hit by the shifted mover, the candidate `_.find` returns for
   * its number, and that tile's own candidates taken from the current list. They are fewer than the
   * current candidates and carry only numbers of the current call.
   */
  function NextLink(rect: Tile, d: int, candidates: seq<Tile>, tileSize: int, mode: Mode, axis: Axis): (l: Link)
    requires |IntersectingBoxes(Shift(rect, axis, d), candidates)| > 0
    ensures |l.ahead| < |candidates|
    ensures forall t :: t in [l.next] + l.ahead ==> t in candidates
    ensures Numbers([l.next] + l.ahead) <= Numbers([rect] + candidates)
  {
    ContactNumberIsCandidate(rect, d, candidates, mode, axis);
    var contact := Smallest(MinMax(rect), IntersectingBoxes(Shift(rect, axis, d), candidates), mode, axis).value;
    var next := Find(candidates, contact.box.number).value;
    var ahead := TilesInFront(next.number, candidates, tileSize, mode, axis);
    SubListMembersAll(ahead, candidates);
    NumbersOfMembers([next] + ahead, [rect] + candidates);
    Link(contact.distance, next, ahead)
  }

  /**
   * How far the mover at `start` may go once the tile it pushes (at gap `s`) allows `child`: all of
   * the gap when the pushed tile cannot move, the request when the chain allows at least that, and
   * gap plus the chain's allowance otherwise. The mover's record is appended last.
   */
  function ForwardStep(number: int, start: int, distanceToMove: int, s: int, child: Push, axis: Axis): (r: Push)
    ensures |r.acc| == |child.acc| + 1 && r.acc[..|child.acc|] == child.acc && r.acc[|child.acc|].number == number
    ensures Position(r.acc[|child.acc|], axis).Some? && Position(r.acc[|child.acc|], Other(axis)).None?
  {
    var a := child.maximumAllowableMovement;
    if a == 0 then
      Push(child.acc + [AxisRecord(number, axis, start + s)], s)
    else if a + s >= distanceToMove then
      Push(child.acc + [AxisRecord(number, axis, start + distanceToMove)], a + s)
    else
      Push(child.acc + [AxisRecord(number, axis, start + a + s)], a + s)
  }

  /** Nothing ahead: the request, cut at the far wall; nothing at all when touching the wall. */
  function ForwardWall(number: int, start: int, distanceToMove: int, coordinateOfWall: int, tileSize: int, axis: Axis): (r: Push)
    ensures forall rec :: rec in r.acc ==> rec.number == number
    ensures forall rec :: rec in r.acc ==> Position(rec, axis).Some? && Position(rec, Other(axis)).None?
  {
    var distanceBetweenWallAndRect := coordinateOfWall - (start + tileSize);
    if distanceBetweenWallAndRect == 0 then Push([], 0)
    else if distanceBetweenWallAndRect < distanceToMove then
      Push([AxisRecord(number, axis, start + distanceBetweenWallAndRect)], distanceBetweenWallAndRect)
    else
      Push([AxisRecord(number, axis, start + distanceToMove)], distanceToMove)
  }

  /** The mirror image of `ForwardStep` for a negative request. */
  function BackwardStep(number: int, start: int, distanceToMove: int, s: int, child: Push, axis: Axis): (r: Push)
    ensures |r.acc| == |child.acc| + 1 && r.acc[..|child.acc|] == child.acc && r.acc[|child.acc|].number == number
    ensures Position(r.acc[|child.acc|], axis).Some? && Position(r.acc[|child.acc|], Other(axis)).None?
  {
    var a := child.maximumAllowableMovement;
    if a == 0 then
      Push(child.acc + [AxisRecord(number, axis, start - s)], s)
    else if -1 * (a + s) <= distanceToMove then
      Push(child.acc + [AxisRecord(number, axis, start + distanceToMove)], a + s)
    else
      Push(child.acc + [AxisRecord(number, axis, start - (a + s))], a + s)
  }

  /** Nothing behind: the request cut at the wall at 0, whose distance is the coordinate itself. */
  function BackwardWall(number: int, start: int, distanceToMove: int, tileSize: int, axis: Axis): (r: Push)
    ensures forall rec :: rec in r.acc ==> rec.number == number
    ensures forall rec :: rec in r.acc ==> Position(rec, axis).Some? && Position(rec, Other(axis)).None?
  {
    var distanceBetweenWallAndRect := start;
    if distanceBetweenWallAndRect == 0 then Push([], 0)
    else if distanceBetweenWallAndRect < Abs(distanceToMove) then
      Push([AxisRecord(number, axis, start - distanceBetweenWallAndRect)], distanceBetweenWallAndRect)
    else
      Push([AxisRecord(number, axis, start + distanceToMove)], Abs(distanceToMove))
  }

  /**
   * The forward resolver. A request above one tile size is refused. Otherwise, if the mover shifted
   * by the request hits candidates, the nearest one is pushed recursively with what is left of the
   * request, against its own candidates taken from the current list; else only the wall limits the
   * move. Records are listed far end of the chain first, the mover last.
   */
  function PushForward(rect: Tile, distanceToMove: int, inFront: seq<Tile>, coordinateOfWall: int,
                       tileSize: int, axis: Axis): (r: Push)
    ensures forall rec :: rec in r.acc ==> Position(rec, axis).Some? && Position(rec, Other(axis)).None?
    ensures forall rec :: rec in r.acc ==> rec.number in Numbers([rect] + inFront)
    ensures Resting(rect, inFront, tileSize, coordinateOfWall, Forward, axis) && 0 < distanceToMove ==>
              Sound(rect, inFront, distanceToMove, tileSize, coordinateOfWall, Forward, axis, r)
    ensures Resting(rect, inFront, tileSize, coordinateOfWall, Forward, axis) && 0 < distanceToMove <= tileSize ==>
              r.maximumAllowableMovement == distanceToMove
              || StoppedAtWall([rect] + inFront, r.acc, tileSize, coordinateOfWall, Forward, axis)
    ensures Resting(rect, inFront, tileSize, coordinateOfWall, Forward, axis) && 0 < distanceToMove <= tileSize
            && |IntersectingBoxes(Shift(rect, axis, distanceToMove), inFront)| > 0 ==>
              EndPosition(NextLink(rect, distanceToMove, inFront, tileSize, Forward, axis).next, r.acc, axis)
                == EndPosition(rect, r.acc, axis) + tileSize
    decreases |inFront|
  {
    MoverNumber(rect, inFront);
    if distanceToMove > tileSize then Push([], 0)
    else
      var hits := IntersectingBoxes(Shift(rect, axis, distanceToMove), inFront);
      var start := Coord(rect, axis);
      if |hits| > 0 then
        var link := NextLink(rect, distanceToMove, inFront, tileSize, Forward, axis);
        var child := PushForward(link.next, distanceToMove - link.gap, link.ahead, coordinateOfWall, tileSize, axis);
        var r := ForwardStep(rect.number, start, distanceToMove, link.gap, child, axis);
        StepMembers(r, child, rect.number);
        if Resting(rect, inFront, tileSize, coordinateOfWall, Forward, axis) && 0 < distanceToMove then
          ForwardChain(rect, distanceToMove, inFront, coordinateOfWall, tileSize, axis, child);
          r
        else r
      else
        var r := ForwardWall(rect.number, start, distanceToMove, coordinateOfWall, tileSize, axis);
        if Resting(rect, inFront, tileSize, coordinateOfWall, Forward, axis) && 0 < distanceToMove then
          ForwardWallSound(rect, inFront, distanceToMove, tileSize, coordinateOfWall, axis);
          ForwardWallReach(rect, inFront, distanceToMove, tileSize, coordinateOfWall, axis);
          r
        else r
  }

  /**
   * The backward resolver: the mirror image, with a negative request. Its wall is always at 0 (the
   * wall parameter is not read), the refusal compares `|request|`, and the allowance is a magnitude.
   */
  function PushBackward(rect: Tile, distanceToMove: int, inBack: seq<Tile>, coordinateOfWall: int,
                        tileSize: int, axis: Axis): (r: Push)
    ensures forall rec :: rec in r.acc ==> Position(rec, axis).Some? && Position(rec, Other(axis)).None?
    ensures forall rec :: rec in r.acc ==> rec.number in Numbers([rect] + inBack)
    ensures Resting(rect, inBack, tileSize, coordinateOfWall, Reverse, axis) && distanceToMove < 0 ==>
              Sound(rect, inBack, distanceToMove, tileSize, coordinateOfWall, Reverse, axis, r)
    ensures Resting(rect, inBack, tileSize, coordinateOfWall, Reverse, axis) && -tileSize <= distanceToMove < 0 ==>
              r.maximumAllowableMovement == Abs(distanceToMove)
              || StoppedAtWall([rect] + inBack, r.acc, tileSize, coordinateOfWall, Reverse, axis)
    ensures Resting(rect, inBack, tileSize, coordinateOfWall, Reverse, axis) && -tileSize <= distanceToMove < 0
            && |IntersectingBoxes(Shift(rect, axis, distanceToMove), inBack)| > 0 ==>
              EndPosition(NextLink(rect, distanceToMove, inBack, tileSize, Reverse, axis).next, r.acc, axis) + tileSize
                == EndPosition(rect, r.acc, axis)
    decreases |inBack|
  {
    MoverNumber(rect, inBack);
    if Abs(distanceToMove) > tileSize then Push([], 0)
    else
      var hits := IntersectingBoxes(Shift(rect, axis, distanceToMove), inBack);
      var start := Coord(rect, axis);
      if |hits| > 0 then
        var link := NextLink(rect, distanceToMove, inBack, tileSize, Reverse, axis);
        var child := PushBackward(link.next, distanceToMove + link.gap, link.ahead, coordinateOfWall, tileSize, axis);
        var r := BackwardStep(rect.number, start, distanceToMove, link.gap, child, axis);
        StepMembers(r, child, rect.number);
        if Resting(rect, inBack, tileSize, coordinateOfWall, Reverse, axis) && distanceToMove < 0 then
          BackwardChain(rect, distanceToMove, inBack, coordinateOfWall, tileSize, axis, child);
          r
        else r
      else
        var r := BackwardWall(rect.number, start, distanceToMove, tileSize, axis);
        if Resting(rect, inBack, tileSize, coordinateOfWall, Reverse, axis) && distanceToMove < 0 then
          BackwardWallSound(rect, inBack, distanceToMove, tileSize, coordinateOfWall, axis);
          BackwardWallReach(rect, inBack, distanceToMove, tileSize, coordinateOfWall, axis);
          r
        else r
  }

  /** The mover's own number is among the numbers of the mover and its candidates. */
  lemma MoverNumber(rect: Tile, candidates: seq<Tile>)
    ensures rect.number in Numbers([rect] + candidates)
  {
    assert rect in [rect] + candidates;
  }

  /** The records of a step are the child's records and the mover's own. */
  lemma StepMembers(r: Push, child: Push, number: int)
    requires |r.acc| == |child.acc| + 1 && r.acc[..|child.acc|] == child.acc && r.acc[|child.acc|].number == number
    ensures forall rec :: rec in r.acc ==> rec in child.acc || rec.number == number
  {
    forall rec | rec in r.acc ensures rec in child.acc || rec.number == number {
      var i :| 0 <= i < |r.acc| && r.acc[i] == rec;
      if i < |child.acc| {
        assert rec == r.acc[..|child.acc|][i];
      }
    }
  }

  // ----- a board at rest, and what a push promises on it -----

  /** Every tile on the board is a `tileSize` square. */
  predicate Sized(t: Tile, tileSize: int)
  {
    t.width == tileSize && t.height == tileSize
  }

  /** The tile lies between the wall at 0 and the wall at `wall` on `axis`. */
  predicate InsideWalls(t: Tile, tileSize: int, wall: int, axis: Axis)
  {
    0 <= Coord(t, axis) && Coord(t, axis) + tileSize <= wall
  }

  /** `t` is strictly ahead of `mover` in the direction of the push. */
  predicate Ahead(mover: Tile, t: Tile, mode: Mode, axis: Axis)
  {
    if mode == Forward then Coord(t, axis) > Coord(mover, axis) else Coord(t, axis) < Coord(mover, axis)
  }

  /**
   * The inputs the dispatcher hands a resolver on a board at rest: equal squares inside the walls,
   * no two of them overlapping, every candidate strictly ahead of the mover, numbers unique.
   */
  predicate Resting(mover: Tile, candidates: seq<Tile>, tileSize: int, wall: int, mode: Mode, axis: Axis)
  {
    tileSize > 0 && Sized(mover, tileSize) && InsideWalls(mover, tileSize, wall, axis)
    && (forall c :: c in candidates ==>
          Sized(c, tileSize) && InsideWalls(c, tileSize, wall, axis) && Ahead(mover, c, mode, axis)
          && !Intersects(MinMax(mover), MinMax(c)))
    && (forall c, e :: c in candidates && e in candidates && c != e ==> !Intersects(MinMax(c), MinMax(e)))
    && UniqueNumbers([mover] + candidates)
  }

  /**
   * `rec` moves a tile of `tiles` along `axis` only, to a position between its rect coordinate plus
   * `lo` and plus `hi`, and still inside the walls.
   */
  predicate Placed(rec: Record, tiles: seq<Tile>, axis: Axis, lo: int, hi: int, tileSize: int, wall: int)
  {
    rec.number in Numbers(tiles) && Position(rec, axis).Some? && Position(rec, Other(axis)).None?
    && var t := Find(tiles, rec.number).value;
       var p := Position(rec, axis).value;
       Coord(t, axis) + lo <= p <= Coord(t, axis) + hi && 0 <= p && p + tileSize <= wall
  }

  /** Where a push leaves its mover: `d` further along `axis` forward, `d` back in reverse. */
  function PushedTo(t: Tile, axis: Axis, mode: Mode, d: int): int
  {
    if mode == Forward then Coord(t, axis) + d else Coord(t, axis) - d
  }

  /**
   * No records and no movement, or the mover's own record last, moving it by the allowance in the
   * push direction.
   */
  predicate MoverLast(mover: Tile, r: Push, mode: Mode, axis: Axis)
  {
    (r.acc == [] ==> r.maximumAllowableMovement == 0)
    && (r.acc != [] ==> r.acc[|r.acc| - 1] == AxisRecord(mover.number, axis, PushedTo(mover, axis, mode, r.maximumAllowableMovement)))
  }

  /**
   * What a push of `mover` by a request `d` promises: the allowance is between 0 and `|d|`; an empty
   * list means no movement; otherwise the mover comes last, moved by exactly the allowance; and every
   * record moves one tile in the push direction by at most `|d|`, inside the walls.
   */
  predicate Sound(mover: Tile, candidates: seq<Tile>, d: int, tileSize: int, wall: int, mode: Mode, axis: Axis, r: Push)
  {
    var lo := if mode == Forward then 0 else d;
    var hi := if mode == Forward then d else 0;
    0 <= r.maximumAllowableMovement <= Abs(d)
    && MoverLast(mover, r, mode, axis)
    && forall rec :: rec in r.acc ==> Placed(rec, [mover] + candidates, axis, lo, hi, tileSize, wall)
  }

  /** A square's box on one axis runs from its coordinate to its coordinate plus the tile size. */
  lemma SquareOnAxis(t: Tile, tileSize: int, axis: Axis)
    requires Sized(t, tileSize)
    ensures Low(MinMax(t), axis) == Coord(t, axis) && High(MinMax(t), axis) == Coord(t, axis) + tileSize
  {
  }

  /** Intersection, read axis by axis. */
  lemma IntersectsOnAxes(a: Box, b: Box, axis: Axis)
    ensures Intersects(a, b) <==>
      (Low(a, axis) < High(b, axis) && Low(b, axis) < High(a, axis)
       && Low(a, Other(axis)) < High(b, Other(axis)) && Low(b, Other(axis)) < High(a, Other(axis)))
  {
  }

  /**
   * A tile ahead of the mover that the mover does not overlap at rest but overlaps once shifted by
   * `d` lies at a gap between 0 (inclusive) and `|d|` (exclusive).
   */
  lemma GapOfHit(rect: Tile, next: Tile, d: int, tileSize: int, mode: Mode, axis: Axis)
    requires tileSize > 0 && Sized(rect, tileSize) && Sized(next, tileSize)
    requires Ahead(rect, next, mode, axis)
    requires mode == Forward ==> d > 0
    requires mode == Reverse ==> d < 0
    requires !Intersects(MinMax(rect), MinMax(next))
    requires Intersects(MinMax(Shift(rect, axis, d)), MinMax(next))
    ensures 0 <= Gap(MinMax(rect), MinMax(next), mode, axis) < Abs(d)
    ensures mode == Forward ==> Coord(next, axis) == Coord(rect, axis) + tileSize + Gap(MinMax(rect), MinMax(next), mode, axis)
    ensures mode == Reverse ==> Coord(next, axis) + tileSize + Gap(MinMax(rect), MinMax(next), mode, axis) == Coord(rect, axis)
  {
    var moved := Shift(rect, axis, d);
    SquareOnAxis(rect, tileSize, axis);
    SquareOnAxis(rect, tileSize, Other(axis));
    SquareOnAxis(next, tileSize, axis);
    SquareOnAxis(next, tileSize, Other(axis));
    SquareOnAxis(moved, tileSize, axis);
    SquareOnAxis(moved, tileSize, Other(axis));
    IntersectsOnAxes(MinMax(rect), MinMax(next), axis);
    IntersectsOnAxes(MinMax(moved), MinMax(next), axis);
  }

  /** The nearest hit is the box of a candidate, the one `_.find` returns for its number. */
  lemma ContactTile(rect: Tile, d: int, candidates: seq<Tile>, mode: Mode, axis: Axis)
    requires UniqueNumbers(candidates)
    requires |IntersectingBoxes(Shift(rect, axis, d), candidates)| > 0
    ensures Smallest(MinMax(rect), IntersectingBoxes(Shift(rect, axis, d), candidates), mode, axis).Some?
    ensures var contact := Smallest(MinMax(rect), IntersectingBoxes(Shift(rect, axis, d), candidates), mode, axis).value;
      contact.box.number in Numbers(candidates)
      && var next := Find(candidates, contact.box.number).value;
         next in candidates && MinMax(next) == contact.box
         && contact.distance == Gap(MinMax(rect), contact.box, mode, axis)
         && Intersects(MinMax(Shift(rect, axis, d)), MinMax(next))
  {
    var hits := IntersectingBoxes(Shift(rect, axis, d), candidates);
    ContactNumberIsCandidate(rect, d, candidates, mode, axis);
    var contact := Smallest(MinMax(rect), hits, mode, axis).value;
    var t :| t in candidates && MinMax(t) == contact.box;
    FindMember(candidates, t);
  }

  /** The pushed tile and its own candidates are again a board at rest. */
  lemma NextResting(rect: Tile, next: Tile, candidates: seq<Tile>, tileSize: int, wall: int, mode: Mode, axis: Axis)
    requires Resting(rect, candidates, tileSize, wall, mode, axis)
    requires next in candidates
    ensures next.number in Numbers(candidates)
    ensures Resting(next, TilesInFront(next.number, candidates, tileSize, mode, axis), tileSize, wall, mode, axis)
    ensures forall t :: t in [next] + TilesInFront(next.number, candidates, tileSize, mode, axis) ==> t in candidates
  {
    assert UniqueNumbers(candidates) by {
      forall t | t in candidates ensures t in [rect] + candidates { }
    }
    FindMember(candidates, next);
    var nextCandidates := TilesInFront(next.number, candidates, tileSize, mode, axis);
    var all := [next] + nextCandidates;
    forall t | t in all ensures t in candidates {
      if t != next { assert t in nextCandidates; }
    }
    forall c | c in nextCandidates
      ensures Ahead(next, c, mode, axis) && c != next
    {
    }
    assert UniqueNumbers(all) by {
      forall t | t in all ensures t in [rect] + candidates { }
    }
  }

  /** The tile the resolver pushes next lies ahead of the mover at the gap the link reports. */
  lemma ContactFacts(rect: Tile, d: int, candidates: seq<Tile>, tileSize: int, wall: int, mode: Mode, axis: Axis)
    requires Resting(rect, candidates, tileSize, wall, mode, axis)
    requires mode == Forward ==> d > 0
    requires mode == Reverse ==> d < 0
    requires |IntersectingBoxes(Shift(rect, axis, d), candidates)| > 0
    ensures var l := NextLink(rect, d, candidates, tileSize, mode, axis);
      l.next in candidates && 0 <= l.gap < Abs(d)
      && (mode == Forward ==> Coord(l.next, axis) == Coord(rect, axis) + tileSize + l.gap)
      && (mode == Reverse ==> Coord(l.next, axis) + tileSize + l.gap == Coord(rect, axis))
  {
    assert UniqueNumbers(candidates) by {
      forall t | t in candidates ensures t in [rect] + candidates { }
    }
    ContactTile(rect, d, candidates, mode, axis);
    var contact := Smallest(MinMax(rect), IntersectingBoxes(Shift(rect, axis, d), candidates), mode, axis).value;
    var next := Find(candidates, contact.box.number).value;
    GapOfHit(rect, next, d, tileSize, mode, axis);
    var ahead := TilesInFront(next.number, candidates, tileSize, mode, axis);
    assert NextLink(rect, d, candidates, tileSize, mode, axis) == Link(contact.distance, next, ahead);
  }

  /** The tile the resolver pushes next, with its own candidates, is again a board at rest. */
  lemma ContactResting(rect: Tile, d: int, candidates: seq<Tile>, tileSize: int, wall: int, mode: Mode, axis: Axis)
    requires Resting(rect, candidates, tileSize, wall, mode, axis)
    requires |IntersectingBoxes(Shift(rect, axis, d), candidates)| > 0
    ensures var l := NextLink(rect, d, candidates, tileSize, mode, axis);
      Resting(l.next, l.ahead, tileSize, wall, mode, axis)
  {
    assert UniqueNumbers(candidates) by {
      forall t | t in candidates ensures t in [rect] + candidates { }
    }
    ContactTile(rect, d, candidates, mode, axis);
    var contact := Smallest(MinMax(rect), IntersectingBoxes(Shift(rect, axis, d), candidates), mode, axis).value;
    var next := Find(candidates, contact.box.number).value;
    NextResting(rect, next, candidates, tileSize, wall, mode, axis);
    assert NextLink(rect, d, candidates, tileSize, mode, axis)
      == Link(contact.distance, next, TilesInFront(next.number, candidates, tileSize, mode, axis));
  }

  /** Inherited records keep their bounds in the wider tile list and the wider range. */
  lemma PlacedWiden(rec: Record, small: seq<Tile>, big: seq<Tile>, axis: Axis, lo: int, hi: int, lo': int, hi': int,
                    tileSize: int, wall: int)
    requires Placed(rec, small, axis, lo', hi', tileSize, wall)
    requires forall t :: t in small ==> t in big
    requires UniqueNumbers(big)
    requires lo <= lo' && hi' <= hi
    ensures Placed(rec, big, axis, lo, hi, tileSize, wall)
  {
    var t := Find(small, rec.number).value;
    FindMember(big, t);
    NumbersOfMembers(small, big);
  }

  /** The mover's own record is placed when it moves by `m` toward the side `lo`..`hi` allows. */
  lemma MoverPlaced(rect: Tile, candidates: seq<Tile>, axis: Axis, p: int, lo: int, hi: int, tileSize: int, wall: int)
    requires UniqueNumbers([rect] + candidates)
    requires Coord(rect, axis) + lo <= p <= Coord(rect, axis) + hi && 0 <= p && p + tileSize <= wall
    ensures Placed(AxisRecord(rect.number, axis, p), [rect] + candidates, axis, lo, hi, tileSize, wall)
  {
    FindMember([rect] + candidates, rect);
  }

  /** Combining a sound push of the pushed tile gives a sound push of the mover. */
  lemma ForwardStepSound(rect: Tile, inFront: seq<Tile>, d: int, tileSize: int, wall: int, axis: Axis,
                         next: Tile, ahead: seq<Tile>, s: int, child: Push)
    requires UniqueNumbers([rect] + inFront) && 0 <= Coord(rect, axis) && tileSize > 0
    requires forall t :: t in [next] + ahead ==> t in inFront
    requires 0 <= s < d && Coord(next, axis) == Coord(rect, axis) + tileSize + s
    requires InsideWalls(next, tileSize, wall, axis)
    requires Sound(next, ahead, d - s, tileSize, wall, Forward, axis, child)
    ensures Sound(rect, inFront, d, tileSize, wall, Forward, axis, ForwardStep(rect.number, Coord(rect, axis), d, s, child, axis))
  {
    var all := [rect] + inFront;
    var r := ForwardStep(rect.number, Coord(rect, axis), d, s, child, axis);
    var a := child.maximumAllowableMovement;
    forall rec | rec in child.acc ensures Placed(rec, all, axis, 0, d, tileSize, wall) {
      PlacedWiden(rec, [next] + ahead, all, axis, 0, d, 0, d - s, tileSize, wall);
    }
    if a > 0 {
      var last := child.acc[|child.acc| - 1];
      assert last in child.acc;
      assert Find([next] + ahead, next.number).value == next;
      assert Coord(next, axis) + a + tileSize <= wall;
    }
    var p := Position(r.acc[|r.acc| - 1], axis).value;
    MoverPlaced(rect, inFront, axis, p, 0, d, tileSize, wall);
    assert r.acc == child.acc + [AxisRecord(rect.number, axis, p)];
  }

  /** The wall case of a forward push is sound. */
  lemma ForwardWallSound(rect: Tile, inFront: seq<Tile>, d: int, tileSize: int, wall: int, axis: Axis)
    requires UniqueNumbers([rect] + inFront) && InsideWalls(rect, tileSize, wall, axis) && d > 0
    ensures Sound(rect, inFront, d, tileSize, wall, Forward, axis, ForwardWall(rect.number, Coord(rect, axis), d, wall, tileSize, axis))
  {
    var r := ForwardWall(rect.number, Coord(rect, axis), d, wall, tileSize, axis);
    if r.acc != [] {
      MoverPlaced(rect, inFront, axis, Position(r.acc[0], axis).value, 0, d, tileSize, wall);
    }
  }

  /** Combining a sound backward push of the pushed tile gives a sound backward push of the mover. */
  lemma BackwardStepSound(rect: Tile, inBack: seq<Tile>, d: int, tileSize: int, wall: int, axis: Axis,
                          next: Tile, behind: seq<Tile>, s: int, child: Push)
    requires UniqueNumbers([rect] + inBack) && Coord(rect, axis) + tileSize <= wall && tileSize > 0
    requires forall t :: t in [next] + behind ==> t in inBack
    requires 0 <= s < -d && Coord(next, axis) + tileSize + s == Coord(rect, axis)
    requires InsideWalls(next, tileSize, wall, axis)
    requires Sound(next, behind, d + s, tileSize, wall, Reverse, axis, child)
    ensures Sound(rect, inBack, d, tileSize, wall, Reverse, axis, BackwardStep(rect.number, Coord(rect, axis), d, s, child, axis))
  {
    var all := [rect] + inBack;
    var r := BackwardStep(rect.number, Coord(rect, axis), d, s, child, axis);
    var a := child.maximumAllowableMovement;
    forall rec | rec in child.acc ensures Placed(rec, all, axis, d, 0, tileSize, wall) {
      PlacedWiden(rec, [next] + behind, all, axis, d, 0, d + s, 0, tileSize, wall);
    }
    if a > 0 {
      var last := child.acc[|child.acc| - 1];
      assert last in child.acc;
      assert Find([next] + behind, next.number).value == next;
      assert Coord(next, axis) - a >= 0;
    }
    var p := Position(r.acc[|r.acc| - 1], axis).value;
    MoverPlaced(rect, inBack, axis, p, d, 0, tileSize, wall);
    assert r.acc == child.acc + [AxisRecord(rect.number, axis, p)];
  }

  /** The wall case of a backward push is sound. */
  lemma BackwardWallSound(rect: Tile, inBack: seq<Tile>, d: int, tileSize: int, wall: int, axis: Axis)
    requires UniqueNumbers([rect] + inBack) && InsideWalls(rect, tileSize, wall, axis) && d < 0
    ensures Sound(rect, inBack, d, tileSize, wall, Reverse, axis, BackwardWall(rect.number, Coord(rect, axis), d, tileSize, axis))
  {
    var r := BackwardWall(rect.number, Coord(rect, axis), d, tileSize, axis);
    if r.acc != [] {
      MoverPlaced(rect, inBack, axis, Position(r.acc[0], axis).value, d, 0, tileSize, wall);
    }
  }

  /** The pushed tile and its candidates meet the requirements of the forward resolver again. */
  lemma ForwardLevelPre(rect: Tile, d: int, inFront: seq<Tile>, wall: int, tileSize: int, axis: Axis)
    requires Resting(rect, inFront, tileSize, wall, Forward, axis)
    requires 0 < d <= tileSize
    requires |IntersectingBoxes(Shift(rect, axis, d), inFront)| > 0
    ensures var l := NextLink(rect, d, inFront, tileSize, Forward, axis);
      Resting(l.next, l.ahead, tileSize, wall, Forward, axis) && 0 < d - l.gap <= tileSize
  {
    ContactFacts(rect, d, inFront, tileSize, wall, Forward, axis);
    ContactResting(rect, d, inFront, tileSize, wall, Forward, axis);
  }

  /** A sound push of the pushed tile makes the forward step of the mover sound. */
  lemma ForwardLevel(rect: Tile, d: int, inFront: seq<Tile>, wall: int, tileSize: int, axis: Axis, child: Push)
    requires Resting(rect, inFront, tileSize, wall, Forward, axis)
    requires 0 < d <= tileSize
    requires |IntersectingBoxes(Shift(rect, axis, d), inFront)| > 0
    requires var l := NextLink(rect, d, inFront, tileSize, Forward, axis);
      Sound(l.next, l.ahead, d - l.gap, tileSize, wall, Forward, axis, child)
    ensures Sound(rect, inFront, d, tileSize, wall, Forward, axis,
                  ForwardStep(rect.number, Coord(rect, axis), d, NextLink(rect, d, inFront, tileSize, Forward, axis).gap, child, axis))
  {
    ContactFacts(rect, d, inFront, tileSize, wall, Forward, axis);
    var l := NextLink(rect, d, inFront, tileSize, Forward, axis);
    ForwardStepSound(rect, inFront, d, tileSize, wall, axis, l.next, l.ahead, l.gap, child);
  }

  /** The pushed tile and its candidates meet the requirements of the backward resolver again. */
  lemma BackwardLevelPre(rect: Tile, d: int, inBack: seq<Tile>, wall: int, tileSize: int, axis: Axis)
    requires Resting(rect, inBack, tileSize, wall, Reverse, axis)
    requires -tileSize <= d < 0
    requires |IntersectingBoxes(Shift(rect, axis, d), inBack)| > 0
    ensures var l := NextLink(rect, d, inBack, tileSize, Reverse, axis);
      Resting(l.next, l.ahead, tileSize, wall, Reverse, axis) && -tileSize <= d + l.gap < 0
  {
    ContactFacts(rect, d, inBack, tileSize, wall, Reverse, axis);
    ContactResting(rect, d, inBack, tileSize, wall, Reverse, axis);
  }

  /** A sound push of the pushed tile makes the backward step of the mover sound. */
  lemma BackwardLevel(rect: Tile, d: int, inBack: seq<Tile>, wall: int, tileSize: int, axis: Axis, child: Push)
    requires Resting(rect, inBack, tileSize, wall, Reverse, axis)
    requires -tileSize <= d < 0
    requires |IntersectingBoxes(Shift(rect, axis, d), inBack)| > 0
    requires var l := NextLink(rect, d, inBack, tileSize, Reverse, axis);
      Sound(l.next, l.ahead, d + l.gap, tileSize, wall, Reverse, axis, child)
    ensures Sound(rect, inBack, d, tileSize, wall, Reverse, axis,
                  BackwardStep(rect.number, Coord(rect, axis), d, NextLink(rect, d, inBack, tileSize, Reverse, axis).gap, child, axis))
  {
    ContactFacts(rect, d, inBack, tileSize, wall, Reverse, axis);
    var l := NextLink(rect, d, inBack, tileSize, Reverse, axis);
    BackwardStepSound(rect, inBack, d, tileSize, wall, axis, l.next, l.ahead, l.gap, child);
  }

  // ----- how far a push goes -----

  /**
   * Where `t` ends on `axis` once the records `acc` are applied in order: at the coordinate of the
   * last record naming it, or where it is when no record names it.
   */
  function EndPosition(t: Tile, acc: seq<Record>, axis: Axis): int
    decreases |acc|
  {
    if |acc| == 0 then Coord(t, axis)
    else
      var last := acc[|acc| - 1];
      if last.number == t.number && Position(last, axis).Some? then Position(last, axis).value
      else EndPosition(t, acc[..|acc| - 1], axis)
  }

  /** Some tile of `tiles` ends flush with the wall the push runs into: `wall` forward, 0 backward. */
  predicate StoppedAtWall(tiles: seq<Tile>, acc: seq<Record>, tileSize: int, wall: int, mode: Mode, axis: Axis)
  {
    exists t :: t in tiles && FlushWithWall(EndPosition(t, acc, axis), tileSize, wall, mode)
  }

  /** A tile at coordinate `p` touches the wall of the push direction. */
  predicate FlushWithWall(p: int, tileSize: int, wall: int, mode: Mode)
  {
    if mode == Forward then p + tileSize == wall else p == 0
  }

  /** A candidate of a board at rest carries a number other than the mover's. */
  lemma CandidateNumber(rect: Tile, candidates: seq<Tile>, t: Tile, tileSize: int, wall: int, mode: Mode, axis: Axis)
    requires Resting(rect, candidates, tileSize, wall, mode, axis)
    requires t in candidates
    ensures t.number != rect.number && t in [rect] + candidates
  {
    assert rect in [rect] + candidates;
    assert t in [rect] + candidates;
    assert Ahead(rect, t, mode, axis);
  }

  /** A record naming another tile, appended last, leaves where `t` ends unchanged. */
  lemma EndPastOtherRecord(t: Tile, acc: seq<Record>, axis: Axis)
    requires |acc| > 0 && acc[|acc| - 1].number != t.number
    ensures EndPosition(t, acc, axis) == EndPosition(t, acc[..|acc| - 1], axis)
  {
  }

  /**
   * A forward step goes the whole request when the pushed tile's push does; otherwise the tile that
   * stopped the pushed tile's chain at the wall stops the mover's chain too.
   */
  lemma ForwardStepReach(rect: Tile, inFront: seq<Tile>, d: int, tileSize: int, wall: int, axis: Axis,
                         next: Tile, ahead: seq<Tile>, s: int, child: Push)
    requires forall t :: t in inFront ==> t.number != rect.number
    requires forall t :: t in [next] + ahead ==> t in inFront
    requires 0 <= s < d && 0 <= child.maximumAllowableMovement <= d - s
    requires child.maximumAllowableMovement == d - s || StoppedAtWall([next] + ahead, child.acc, tileSize, wall, Forward, axis)
    ensures var r := ForwardStep(rect.number, Coord(rect, axis), d, s, child, axis);
      r.maximumAllowableMovement == d || StoppedAtWall([rect] + inFront, r.acc, tileSize, wall, Forward, axis)
  {
    var r := ForwardStep(rect.number, Coord(rect, axis), d, s, child, axis);
    if child.maximumAllowableMovement != d - s {
      var t :| t in [next] + ahead && FlushWithWall(EndPosition(t, child.acc, axis), tileSize, wall, Forward);
      assert t in [rect] + inFront;
      EndPastOtherRecord(t, r.acc, axis);
      assert r.acc[..|r.acc| - 1] == child.acc;
    }
  }

  /** The forward wall case goes the whole request unless the mover ends flush with the wall. */
  lemma ForwardWallReach(rect: Tile, inFront: seq<Tile>, d: int, tileSize: int, wall: int, axis: Axis)
    requires InsideWalls(rect, tileSize, wall, axis) && d > 0
    ensures var r := ForwardWall(rect.number, Coord(rect, axis), d, wall, tileSize, axis);
      r.maximumAllowableMovement == d || StoppedAtWall([rect] + inFront, r.acc, tileSize, wall, Forward, axis)
  {
    var r := ForwardWall(rect.number, Coord(rect, axis), d, wall, tileSize, axis);
    assert rect in [rect] + inFront;
    if r.maximumAllowableMovement != d {
      assert FlushWithWall(EndPosition(rect, r.acc, axis), tileSize, wall, Forward);
    }
  }

  /** The backward counterpart of `ForwardStepReach`. */
  lemma BackwardStepReach(rect: Tile, inBack: seq<Tile>, d: int, tileSize: int, wall: int, axis: Axis,
                          next: Tile, behind: seq<Tile>, s: int, child: Push)
    requires forall t :: t in inBack ==> t.number != rect.number
    requires forall t :: t in [next] + behind ==> t in inBack
    requires 0 <= s < -d && 0 <= child.maximumAllowableMovement <= Abs(d + s)
    requires child.maximumAllowableMovement == Abs(d + s) || StoppedAtWall([next] + behind, child.acc, tileSize, wall, Reverse, axis)
    ensures var r := BackwardStep(rect.number, Coord(rect, axis), d, s, child, axis);
      r.maximumAllowableMovement == Abs(d) || StoppedAtWall([rect] + inBack, r.acc, tileSize, wall, Reverse, axis)
  {
    var r := BackwardStep(rect.number, Coord(rect, axis), d, s, child, axis);
    if child.maximumAllowableMovement != Abs(d + s) {
      var t :| t in [next] + behind && FlushWithWall(EndPosition(t, child.acc, axis), tileSize, wall, Reverse);
      assert t in [rect] + inBack;
      EndPastOtherRecord(t, r.acc, axis);
      assert r.acc[..|r.acc| - 1] == child.acc;
    }
  }

  /** The backward wall case goes the whole request unless the mover ends at 0. */
  lemma BackwardWallReach(rect: Tile, inBack: seq<Tile>, d: int, tileSize: int, wall: int, axis: Axis)
    requires InsideWalls(rect, tileSize, wall, axis) && d < 0
    ensures var r := BackwardWall(rect.number, Coord(rect, axis), d, tileSize, axis);
      r.maximumAllowableMovement == Abs(d) || StoppedAtWall([rect] + inBack, r.acc, tileSize, wall, Reverse, axis)
  {
    var r := BackwardWall(rect.number, Coord(rect, axis), d, tileSize, axis);
    assert rect in [rect] + inBack;
    if r.maximumAllowableMovement != Abs(d) {
      assert FlushWithWall(EndPosition(rect, r.acc, axis), tileSize, wall, Reverse);
    }
  }

  /** Every candidate of a board at rest carries a number other than the mover's. */
  lemma CandidateNumbers(rect: Tile, candidates: seq<Tile>, tileSize: int, wall: int, mode: Mode, axis: Axis)
    requires Resting(rect, candidates, tileSize, wall, mode, axis)
    ensures forall t :: t in candidates ==> t.number != rect.number
  {
    forall t | t in candidates ensures t.number != rect.number {
      CandidateNumber(rect, candidates, t, tileSize, wall, mode, axis);
    }
  }

  /**
   * When the pushed tile's push goes its whole request or is stopped at the wall, so is the
   * mover's forward step; and the mover and the tile it pushes end touching.
   */
  lemma ForwardLevelReach(rect: Tile, d: int, inFront: seq<Tile>, wall: int, tileSize: int, axis: Axis, child: Push)
    requires Resting(rect, inFront, tileSize, wall, Forward, axis)
    requires 0 < d <= tileSize
    requires |IntersectingBoxes(Shift(rect, axis, d), inFront)| > 0
    requires var l := NextLink(rect, d, inFront, tileSize, Forward, axis);
      Sound(l.next, l.ahead, d - l.gap, tileSize, wall, Forward, axis, child)
      && (child.maximumAllowableMovement == d - l.gap
          || StoppedAtWall([l.next] + l.ahead, child.acc, tileSize, wall, Forward, axis))
    ensures var l := NextLink(rect, d, inFront, tileSize, Forward, axis);
      var r := ForwardStep(rect.number, Coord(rect, axis), d, l.gap, child, axis);
      (r.maximumAllowableMovement == d || StoppedAtWall([rect] + inFront, r.acc, tileSize, wall, Forward, axis))
      && EndPosition(l.next, r.acc, axis) == EndPosition(rect, r.acc, axis) + tileSize
  {
    var l := NextLink(rect, d, inFront, tileSize, Forward, axis);
    assert forall t :: t in inFront ==> t.number != rect.number by {
      CandidateNumbers(rect, inFront, tileSize, wall, Forward, axis);
    }
    assert l.next.number != rect.number && 0 <= l.gap < d && Coord(l.next, axis) == Coord(rect, axis) + tileSize + l.gap by {
      LinkFacts(rect, d, inFront, tileSize, wall, Forward, axis);
    }
    ForwardStepReach(rect, inFront, d, tileSize, wall, axis, l.next, l.ahead, l.gap, child);
    assert 0 <= child.maximumAllowableMovement <= d - l.gap && MoverLast(l.next, child, Forward, axis);
    ForwardStepAbuts(rect, d, tileSize, axis, l.next, l.gap, child);
  }


  /** The backward counterpart of `ForwardLevelReach`. */
  lemma BackwardLevelReach(rect: Tile, d: int, inBack: seq<Tile>, wall: int, tileSize: int, axis: Axis, child: Push)
    requires Resting(rect, inBack, tileSize, wall, Reverse, axis)
    requires -tileSize <= d < 0
    requires |IntersectingBoxes(Shift(rect, axis, d), inBack)| > 0
    requires var l := NextLink(rect, d, inBack, tileSize, Reverse, axis);
      Sound(l.next, l.ahead, d + l.gap, tileSize, wall, Reverse, axis, child)
      && (child.maximumAllowableMovement == Abs(d + l.gap)
          || StoppedAtWall([l.next] + l.ahead, child.acc, tileSize, wall, Reverse, axis))
    ensures var l := NextLink(rect, d, inBack, tileSize, Reverse, axis);
      var r := BackwardStep(rect.number, Coord(rect, axis), d, l.gap, child, axis);
      (r.maximumAllowableMovement == Abs(d) || StoppedAtWall([rect] + inBack, r.acc, tileSize, wall, Reverse, axis))
      && EndPosition(l.next, r.acc, axis) + tileSize == EndPosition(rect, r.acc, axis)
  {
    var l := NextLink(rect, d, inBack, tileSize, Reverse, axis);
    assert forall t :: t in inBack ==> t.number != rect.number by {
      CandidateNumbers(rect, inBack, tileSize, wall, Reverse, axis);
    }
    assert l.next.number != rect.number && 0 <= l.gap < -d && Coord(l.next, axis) + tileSize + l.gap == Coord(rect, axis) by {
      LinkFacts(rect, d, inBack, tileSize, wall, Reverse, axis);
    }
    BackwardStepReach(rect, inBack, d, tileSize, wall, axis, l.next, l.ahead, l.gap, child);
    assert 0 <= child.maximumAllowableMovement <= -(d + l.gap) && MoverLast(l.next, child, Reverse, axis);
    BackwardStepAbuts(rect, d, tileSize, axis, l.next, l.gap, child);
  }


  /** After a forward step the mover and the tile it pushes end touching. */
  lemma ForwardStepAbuts(rect: Tile, d: int, tileSize: int, axis: Axis, next: Tile, s: int, child: Push)
    requires next.number != rect.number
    requires 0 <= s < d && Coord(next, axis) == Coord(rect, axis) + tileSize + s
    requires 0 <= child.maximumAllowableMovement <= d - s && MoverLast(next, child, Forward, axis)
    ensures var r := ForwardStep(rect.number, Coord(rect, axis), d, s, child, axis);
      EndPosition(next, r.acc, axis) == EndPosition(rect, r.acc, axis) + tileSize
  {
    var r := ForwardStep(rect.number, Coord(rect, axis), d, s, child, axis);
    assert EndPosition(next, child.acc, axis) == Coord(next, axis) + child.maximumAllowableMovement;
    EndPastOtherRecord(next, r.acc, axis);
    assert r.acc[..|r.acc| - 1] == child.acc;
  }

  /** After a backward step the mover and the tile it pushes end touching. */
  lemma BackwardStepAbuts(rect: Tile, d: int, tileSize: int, axis: Axis, next: Tile, s: int, child: Push)
    requires next.number != rect.number
    requires 0 <= s < -d && Coord(next, axis) + tileSize + s == Coord(rect, axis)
    requires 0 <= child.maximumAllowableMovement <= -(d + s) && MoverLast(next, child, Reverse, axis)
    ensures var r := BackwardStep(rect.number, Coord(rect, axis), d, s, child, axis);
      EndPosition(next, r.acc, axis) + tileSize == EndPosition(rect, r.acc, axis)
  {
    var r := BackwardStep(rect.number, Coord(rect, axis), d, s, child, axis);
    assert EndPosition(next, child.acc, axis) == Coord(next, axis) - child.maximumAllowableMovement;
    EndPastOtherRecord(next, r.acc, axis);
    assert r.acc[..|r.acc| - 1] == child.acc;
  }

  /**
   * On a board at rest, the tile the resolver pushes next carries another number than the mover
   * and lies at the link's gap ahead of it.
   */
  lemma LinkFacts(rect: Tile, d: int, candidates: seq<Tile>, tileSize: int, wall: int, mode: Mode, axis: Axis)
    requires Resting(rect, candidates, tileSize, wall, mode, axis)
    requires mode == Forward ==> d > 0
    requires mode == Reverse ==> d < 0
    requires |IntersectingBoxes(Shift(rect, axis, d), candidates)| > 0
    ensures var l := NextLink(rect, d, candidates, tileSize, mode, axis);
      l.next.number != rect.number && 0 <= l.gap < Abs(d)
      && (mode == Forward ==> Coord(l.next, axis) == Coord(rect, axis) + tileSize + l.gap)
      && (mode == Reverse ==> Coord(l.next, axis) + tileSize + l.gap == Coord(rect, axis))
  {
    ContactFacts(rect, d, candidates, tileSize, wall, mode, axis);
    CandidateNumber(rect, candidates, NextLink(rect, d, candidates, tileSize, mode, axis).next, tileSize, wall, mode, axis);
  }

  /**
   * The step case of the forward resolver on a board at rest: given what the pushed tile's own push
   * promises, the mover's push is sound, goes the whole request or is stopped at the wall, and
   * leaves the mover touching the tile it pushes.
   */
  lemma ForwardChain(rect: Tile, d: int, inFront: seq<Tile>, wall: int, tileSize: int, axis: Axis, child: Push)
    requires Resting(rect, inFront, tileSize, wall, Forward, axis)
    requires 0 < d <= tileSize
    requires |IntersectingBoxes(Shift(rect, axis, d), inFront)| > 0
    requires var l := NextLink(rect, d, inFront, tileSize, Forward, axis);
      Resting(l.next, l.ahead, tileSize, wall, Forward, axis) && 0 < d - l.gap <= tileSize ==>
        Sound(l.next, l.ahead, d - l.gap, tileSize, wall, Forward, axis, child)
        && (child.maximumAllowableMovement == d - l.gap
            || StoppedAtWall([l.next] + l.ahead, child.acc, tileSize, wall, Forward, axis))
    ensures var l := NextLink(rect, d, inFront, tileSize, Forward, axis);
      var r := ForwardStep(rect.number, Coord(rect, axis), d, l.gap, child, axis);
      Sound(rect, inFront, d, tileSize, wall, Forward, axis, r)
      && (r.maximumAllowableMovement == d || StoppedAtWall([rect] + inFront, r.acc, tileSize, wall, Forward, axis))
      && EndPosition(l.next, r.acc, axis) == EndPosition(rect, r.acc, axis) + tileSize
  {
    ForwardLevelPre(rect, d, inFront, wall, tileSize, axis);
    ForwardLevel(rect, d, inFront, wall, tileSize, axis, child);
    ForwardLevelReach(rect, d, inFront, wall, tileSize, axis, child);
  }

  /**
   * The step case of the backward resolver on a board at rest: given what the pushed tile's own push
   * promises, the mover's push is sound, goes the whole request or is stopped at the wall, and
   * leaves the mover touching the tile it pushes.
   */
  lemma BackwardChain(rect: Tile, d: int, inBack: seq<Tile>, wall: int, tileSize: int, axis: Axis, child: Push)
    requires Resting(rect, inBack, tileSize, wall, Reverse, axis)
    requires -tileSize <= d < 0
    requires |IntersectingBoxes(Shift(rect, axis, d), inBack)| > 0
    requires var l := NextLink(rect, d, inBack, tileSize, Reverse, axis);
      Resting(l.next, l.ahead, tileSize, wall, Reverse, axis) && -tileSize <= d + l.gap < 0 ==>
        Sound(l.next, l.ahead, d + l.gap, tileSize, wall, Reverse, axis, child)
        && (child.maximumAllowableMovement == Abs(d + l.gap)
            || StoppedAtWall([l.next] + l.ahead, child.acc, tileSize, wall, Reverse, axis))
    ensures var l := NextLink(rect, d, inBack, tileSize, Reverse, axis);
      var r := BackwardStep(rect.number, Coord(rect, axis), d, l.gap, child, axis);
      Sound(rect, inBack, d, tileSize, wall, Reverse, axis, r)
      && (r.maximumAllowableMovement == Abs(d) || StoppedAtWall([rect] + inBack, r.acc, tileSize, wall, Reverse, axis))
      && EndPosition(l.next, r.acc, axis) + tileSize == EndPosition(rect, r.acc, axis)
  {
    BackwardLevelPre(rect, d, inBack, wall, tileSize, axis);
    BackwardLevel(rect, d, inBack, wall, tileSize, axis, child);
    BackwardLevelReach(rect, d, inBack, wall, tileSize, axis, child);
  }
}
