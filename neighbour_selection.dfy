/** getRectanglesInFrontOfRectangle: the tiles that lie in the path of a tile along one axis. */
module NeighbourSelection {
  import opened Wrappers
  import opened Tiles
  import opened Lists

  /**
   * The filter predicate: strictly ahead of `reference` on the primary axis (`>` for FORWARD,
   * `<` for REVERSE) and strictly inside the lane `(ref - tileSize, ref + tileSize)` on the cross axis.
   */
  predicate InFront(reference: Tile, t: Tile, tileSize: int, mode: Mode, axis: Axis)
  {
    var key1Passed := if mode == Forward then Coord(t, axis) > Coord(reference, axis)
                      else Coord(t, axis) < Coord(reference, axis);
    var key2Passed1 := Coord(t, Other(axis)) > Coord(reference, Other(axis)) - tileSize;
    var key2Passed2 := Coord(t, Other(axis)) < Coord(reference, Other(axis)) + tileSize;
    key1Passed && key2Passed1 && key2Passed2
  }

  /** `_.filter(tiles, t => InFront(reference, t))` */
  function FilterInFront(reference: Tile, tiles: seq<Tile>, tileSize: int, mode: Mode, axis: Axis): (r: seq<Tile>)
    ensures SubList(r, tiles)
    ensures forall t :: t in r ==> t in tiles && InFront(reference, t, tileSize, mode, axis)
    ensures forall t :: t in tiles && InFront(reference, t, tileSize, mode, axis) ==> t in r
  {
    if |tiles| == 0 then []
    else
      var rest := FilterInFront(reference, tiles[1..], tileSize, mode, axis);
      SubListMembersAll(rest, tiles[1..]);
      if InFront(reference, tiles[0], tileSize, mode, axis) then [tiles[0]] + rest else rest
  }

  lemma SubListMembersAll(a: seq<Tile>, b: seq<Tile>)
    requires SubList(a, b)
    ensures forall t :: t in a ==> t in b
  {
    forall t | t in a ensures t in b {
      SubListMembers(a, b, t);
    }
  }

  /**
   * getRectanglesInFrontOfRectangle(tileNumber, tiles, tileSize, mode, key): the reference tile is
   * looked up by number (the caller guarantees it is present), and the tiles passing the filter are
   * returned in order. The reference tile itself never passes, so the result is strictly shorter.
   */
  function TilesInFront(tileNumber: int, tiles: seq<Tile>, tileSize: int, mode: Mode, axis: Axis): (r: seq<Tile>)
    requires tileNumber in Numbers(tiles)
    ensures SubList(r, tiles) && |r| < |tiles|
    ensures Find(tiles, tileNumber).value !in r
    ensures forall t :: t in r <==> t in tiles && InFront(Find(tiles, tileNumber).value, t, tileSize, mode, axis)
  {
    var reference := Find(tiles, tileNumber).value;
    var r := FilterInFront(reference, tiles, tileSize, mode, axis);
    assert !InFront(reference, reference, tileSize, mode, axis);
    SubListShorter(r, tiles, reference);
    r
  }
}
