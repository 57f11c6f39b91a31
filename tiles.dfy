/**
 * The tile record kept in the board state (the TILE_STATE_KEYS fields), the two axes and the two
 * directions of a push (the MODE enumeration), and the lookup `_.find(tiles, [NUMBER, n])`.
 */
module Tiles {
  import opened Wrappers

  datatype Axis = X | Y

  /** FORWARD looks at increasing coordinates, REVERSE at decreasing ones. */
  datatype Mode = Forward | Reverse

  /**
   * One tile. The four drag-start fields are `null` outside a drag, modelled as `None`;
   * `column` and `row` are POSITION_COLUMN and POSITION_ROW.
   */
  datatype Tile = Tile(
    number: int,
    x: int,
    y: int,
    width: int,
    height: int,
    isDragging: bool,
    eventDragStartX: Option<int>,
    eventDragStartY: Option<int>,
    rectangleStartingDragX: Option<int>,
    rectangleStartingDragY: Option<int>,
    column: int,
    row: int)

  /**
   * A resolver result entry `{number, newX, newY}`. The resolver sets only the coordinate of the
   * axis it works on; the other one is `undefined` (`None`) until the dispatcher fills it in.
   */
  datatype Record = Record(number: int, newX: Option<int>, newY: Option<int>)

  function Other(axis: Axis): Axis
  {
    if axis == X then Y else X
  }

  /** `Math.abs` on integers; lodash's `_.range` also counts this many steps. */
  function Abs(n: int): int
  {
    if n < 0 then -n else n
  }

  /** `tile[key]` for key X or Y. */
  function Coord(t: Tile, axis: Axis): int
  {
    if axis == X then t.x else t.y
  }

  /** `Object.assign({}, t, {[key]: t[key] + d})`: the tile moved by `d` along `axis`. */
  function Shift(t: Tile, axis: Axis, d: int): (s: Tile)
    ensures Coord(s, axis) == Coord(t, axis) + d
    ensures Coord(s, Other(axis)) == Coord(t, Other(axis))
    ensures s.number == t.number && s.width == t.width && s.height == t.height
  {
    if axis == X then t.(x := t.x + d) else t.(y := t.y + d)
  }

  /** `{number, [positionProp]: p}`: a record carrying only the coordinate of `axis`. */
  function AxisRecord(number: int, axis: Axis, p: int): Record
  {
    if axis == X then Record(number, Some(p), None) else Record(number, None, Some(p))
  }

  /** The coordinate a record sets on `axis` (`undefined` when it does not set it). */
  function Position(r: Record, axis: Axis): Option<int>
  {
    if axis == X then r.newX else r.newY
  }

  /** The set of tile numbers that occur in `s`. */
  function Numbers(s: seq<Tile>): set<int>
  {
    set t | t in s :: t.number
  }

  /** No two different tiles of `s` share a number. */
  predicate UniqueNumbers(s: seq<Tile>)
  {
    forall a, b :: a in s && b in s && a.number == b.number ==> a == b
  }

  /** `_.find(s, [NUMBER, n])`: the first tile of `s` numbered `n`. */
  function Find(s: seq<Tile>, n: int): (r: Option<Tile>)
    ensures r.Some? <==> n in Numbers(s)
    ensures r.Some? ==> r.value in s && r.value.number == n
  {
    if |s| == 0 then None
    else if s[0].number == n then Some(s[0])
    else
      assert n in Numbers(s) ==> n in Numbers(s[1..]) by {
        if n in Numbers(s) {
          var t :| t in s && t.number == n;
          assert t != s[0];
          assert t in s[1..];
        }
      }
      Find(s[1..], n)
  }

  /** `_.find` stops at the first match: no earlier tile carries the number. */
  lemma {:induction false} FindFirst(s: seq<Tile>, n: int)
    requires n in Numbers(s)
    ensures exists i :: 0 <= i < |s| && s[i] == Find(s, n).value && forall j :: 0 <= j < i ==> s[j].number != n
  {
    if s[0].number != n {
      assert n in Numbers(s[1..]) by {
        var t :| t in s && t.number == n;
        assert t != s[0];
        assert t in s[1..];
      }
      FindFirst(s[1..], n);
      var i :| 0 <= i < |s[1..]| && s[1..][i] == Find(s[1..], n).value && forall j :: 0 <= j < i ==> s[1..][j].number != n;
      assert s[i + 1] == Find(s, n).value;
      forall j | 0 <= j < i + 1 ensures s[j].number != n {
        if j > 0 { assert s[j] == s[1..][j - 1]; }
      }
    }
  }

  /** With unique numbers, looking a member up by its number finds that member. */
  lemma FindMember(s: seq<Tile>, t: Tile)
    requires UniqueNumbers(s) && t in s
    ensures Find(s, t.number) == Some(t)
  {
    assert t.number in Numbers(s);
  }
}
