/**
 * getSmallestDistanceBetweenRectAndRectanglesInFront: the candidate box nearest to a box along one
 * axis and direction, and the gap to it.
 */
module NearestObstacle {
  import opened Wrappers
  import opened Tiles
  import opened RectangleGeometry

  /** `{smallestDistance, nextRectangleGettingPushedMinMax}` for a non-empty candidate list. */
  datatype Contact = Contact(distance: int, box: Box)

  /** FORWARD: candidate.min - rect.max; REVERSE: rect.min - candidate.max, on the chosen axis. */
  function Gap(rect: Box, candidate: Box, mode: Mode, axis: Axis): int
  {
    if mode == Forward then Low(candidate, axis) - High(rect, axis)
    else Low(rect, axis) - High(candidate, axis)
  }

  /** `candidates[i]` is the first candidate whose gap is `d`, and every earlier gap is larger. */
  predicate FirstAt(rect: Box, candidates: seq<Box>, mode: Mode, axis: Axis, i: int, d: int)
  {
    0 <= i < |candidates| && Gap(rect, candidates[i], mode, axis) == d
    && forall j :: 0 <= j < i ==> Gap(rect, candidates[j], mode, axis) > d
  }

  /**
   * The value the `forEach` loop holds after visiting `candidates`: `None` stands for the initial
   * `Infinity`/`null` pair, and a candidate replaces the current one only when its gap is strictly
   * smaller. The contact found is one of the candidates, at its own gap.
   */
  function Smallest(rect: Box, candidates: seq<Box>, mode: Mode, axis: Axis): (r: Option<Contact>)
    ensures r.None? <==> |candidates| == 0
    ensures r.Some? ==> r.value.box in candidates && r.value.distance == Gap(rect, r.value.box, mode, axis)
    decreases |candidates|
  {
    if |candidates| == 0 then None
    else
      var front := candidates[..|candidates| - 1];
      var last := candidates[|candidates| - 1];
      var best := Smallest(rect, front, mode, axis);
      var distance := Gap(rect, last, mode, axis);
      if best.None? || distance < best.value.distance then Some(Contact(distance, last))
      else
        assert best.value.box in candidates by {
          var k :| 0 <= k < |front| && front[k] == best.value.box;
          assert candidates[k] == front[k];
        }
        best
  }

  /**
   * The contact is the FIRST candidate with the minimal gap: no candidate is nearer, and every
   * candidate before it is strictly farther, because the comparison is strict.
   */
  lemma {:induction false} SmallestIsFirstMinimum(rect: Box, candidates: seq<Box>, mode: Mode, axis: Axis)
    requires |candidates| > 0
    ensures var c := Smallest(rect, candidates, mode, axis).value;
      (exists i :: FirstAt(rect, candidates, mode, axis, i, c.distance) && candidates[i] == c.box)
      && forall j :: 0 <= j < |candidates| ==> c.distance <= Gap(rect, candidates[j], mode, axis)
    decreases |candidates|
  {
    var front := candidates[..|candidates| - 1];
    var last := candidates[|candidates| - 1];
    var c := Smallest(rect, candidates, mode, axis).value;
    var distance := Gap(rect, last, mode, axis);
    if |front| == 0 {
      assert FirstAt(rect, candidates, mode, axis, 0, c.distance);
    } else {
      SmallestIsFirstMinimum(rect, front, mode, axis);
      var best := Smallest(rect, front, mode, axis).value;
      var i :| FirstAt(rect, front, mode, axis, i, best.distance) && front[i] == best.box;
      if distance < best.distance {
        assert c == Contact(distance, last);
        forall j | 0 <= j < |front| ensures distance < Gap(rect, candidates[j], mode, axis) {
          assert candidates[j] == front[j];
        }
        assert FirstAt(rect, candidates, mode, axis, |candidates| - 1, distance);
      } else {
        assert c == best;
        assert candidates[i] == front[i];
        forall j | 0 <= j < i ensures Gap(rect, candidates[j], mode, axis) > c.distance {
          assert candidates[j] == front[j];
        }
        assert FirstAt(rect, candidates, mode, axis, i, c.distance);
        forall j | 0 <= j < |candidates| ensures c.distance <= Gap(rect, candidates[j], mode, axis) {
          if j < |front| { assert candidates[j] == front[j]; }
        }
      }
    }
  }

  /** The `forEach` loop itself. */
  method SmallestDistance(rect: Box, rectanglesInFront: seq<Box>, mode: Mode, axis: Axis) returns (r: Option<Contact>)
    ensures r == Smallest(rect, rectanglesInFront, mode, axis)
  {
    r := None;
    var i := 0;
    while i < |rectanglesInFront|
      invariant 0 <= i <= |rectanglesInFront|
      invariant r == Smallest(rect, rectanglesInFront[..i], mode, axis)
    {
      var rectangle := rectanglesInFront[i];
      var distance := Gap(rect, rectangle, mode, axis);
      assert rectanglesInFront[..i + 1][..i] == rectanglesInFront[..i];
      if r.None? || distance < r.value.distance {
        r := Some(Contact(distance, rectangle));
      }
      i := i + 1;
    }
    assert rectanglesInFront[..i] == rectanglesInFront;
  }
}
