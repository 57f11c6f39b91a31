# 15-gem-game-demo board state, in Dafny

This project models the board-state core of a sliding-tile puzzle, where the tiles move by being dragged. Its parts:

- **Board setup.** `createArrayOfNumbers` and `createBoard` deal a shuffled grid of tile numbers with one blank cell (0).
- **Tile state.** `createTileState` turns that grid into a map of tiles keyed by number. `getBoardModelFromTileData` turns the map back into a grid.
- **Drag and push.** When a tile is dragged, the resolver works out which tiles are pushed and how far:
  - the rectangle geometry: `doRectanglesIntersect`, `getMinMaxXandYForRect`, `getMaxPointForRectangle`;
  - the neighbour and nearest-obstacle searches: `getRectanglesThatRectangleIntersectsWith`, `getRectanglesInFrontOfRectangle`, `getSmallestDistanceBetweenRectAndRectanglesInFront`;
  - the recursive forward and backward push resolvers;
  - the X-then-Y axis dispatcher: `getWhichRectanglesNeedToMoveAndHowFar`, `mapOtherCoordinateValuesToResults`, `checkIfXValuesHaveChanged`.
- **History.** `ApplicationHistory` is a two-stack undo/redo history.
- **Reducer.** `boardStateReducer` is the action state machine that ties the parts together.

## Modules and files

| Module | File | What it models |
|---|---|---|
| `Wrappers` | `wrappers.dfy` | `Option`. `None` stands for JS `null` / `undefined`. |
| `Lists` | `lists.dfy` | Order-preserving sub-lists, the shape of every `_.filter`. |
| `Tiles` | `tiles.dfy` | The tile record, `Axis`, `Mode` and resolver records, plus `_.find` by number. |
| `RectangleGeometry` | `rectangle_geometry.dfy` | Min/max boxes, the corner point, the strict intersection test, the intersecting-candidates filter. |
| `NeighbourSelection` | `neighbour_selection.dfy` | The "in front of" filter. |
| `NearestObstacle` | `nearest_obstacle.dfy` | The nearest box and its gap, as a loop (method) proved against a recursive specification. |
| `PushResolver` | `push_resolver.dfy` | The forward and backward push resolvers, proved sound on a board at rest. |
| `PushExamples` | `push_examples.dfy` | Concrete cases from the project's own tests. |
| `AxisDispatcher` | `axis_dispatcher.dfy` | The dispatcher as a method, specified by a function. Also the tile map's array in key order. |
| `DispatcherProperties` | `dispatcher_properties.dfy` | X priority, and tiles staying between the walls and within the drag. |
| `TileState` | `tile_state.dfy` | Grid to tile map and back, and the round trip. |
| `BoardSetup` | `board_setup.dfy` | The shuffled list and the board, as loops with invariants. |
| `History` | `history.dfy` | `ApplicationHistory` as a class with two `seq` fields, specified by functions on a `Stacks` value. |
| `BoardStateReducer` | `board_state_reducer.dfy` | The reducer as a class holding the history singleton, specified by the function `Reduced`. |

### How the model maps the JavaScript

**Numbers and null.**
- Coordinates and sizes are `int`.
- JS `null` in a stored field is `None`.
- Where such a field takes part in arithmetic (the drag-start fields in the move delta, and the board size), `null` counts as 0. This is the helper `Num`.

**Code that changes state.**
- The reducer's `produce` draft updates are proved against value-level step functions:
  - `Populated`, `Started`, `Ended` and `Moved` are those step functions;
  - `Reduced` combines them with the history step.
- The `forEach` that applies the resolver's records is the loop `ApplyMoves`.
- `createTileState`'s `forEach` filling the hash is the loop `CreateTileState`.
- The nearest-obstacle `forEach` is the loop `SmallestDistance`.
- The `break` loop of `checkIfXValuesHaveChanged` is the loop `CheckIfXValuesHaveChanged`.
- In `getWhichRectanglesNeedToMoveAndHowFar`, the reassigned `result` and the overwrite of `result.acc` are the methods `TryAxis` and `FillResult`. Each is proved equal to the function that specifies it (`AxisAttempt`, `FillIfAny`). The functions are what the dispatcher's lemmas reason about.

**Iteration order.** `_.map(tileData, t => t)` lists a JS object's non-negative integer keys (array indices) in ascending order. It is modelled as the map's values in ascending key order (`TileArray`). A dealt board only has tile numbers 1 .. columns*rows-1 (`BoardSetup.DealtKeysAreIndices`), so the two orders agree on every board the game builds.

**Randomness.** The random draws of `getRandomNumberWithMaximum` are inputs. `Drawn(r, x)` says only what that function can return.

## Model

Source cells are paths in the repository, with line ranges.

| member | source | states |
|---|---|---|
| Tiles.Shift | nginx/html/scripts/app/state/boardState/utils/dragMoveUtils/getRectanglesThatArePushedForward.js:41 | Shifting a tile on one axis moves that coordinate by exactly the shift. It keeps the other coordinate, the number and the size. |
| Tiles.Find | nginx/html/scripts/app/state/boardState/utils/dragMoveUtils/mapOtherCoordinateValuesToResults.js:31 | `_.find` by number finds a tile exactly when some tile has that number. What it finds is a member of the list carrying that number. |
| Tiles.FindFirst | nginx/html/scripts/app/state/boardState/utils/dragMoveUtils/getRectanglesInFrontOfRectangle.js:17 | The tile found is the first one in the list with that number. |
| Tiles.FindMember | nginx/html/scripts/app/state/boardState/utils/dragMoveUtils/getRectanglesThatArePushedForward.js:54 | With unique numbers, finding a member's number returns that member. |
| RectangleGeometry.MinMax | nginx/html/scripts/app/state/boardState/utils/dragMoveUtils/getMinMaxXandYForRect.js:9-17 | The box carries the tile's number. Its min corner is the tile's X/Y. Its extent on each axis is the tile's width/height. |
| RectangleGeometry.MaxPoint | nginx/html/scripts/app/state/boardState/utils/getMaxPointForRectangle.js:10-22 | The corner lies exactly width to the right of x and height below y. |
| RectangleGeometry.IntersectsIffOverlap | nginx/html/scripts/app/state/boardState/utils/doRectanglesIntersect.js:8-15 | Boxes intersect if and only if, on both axes, each box's min is strictly below the other's max. |
| RectangleGeometry.IntersectsSymmetric | nginx/html/spec/utils-spec.js:137-178 | Intersection does not depend on argument order. |
| RectangleGeometry.TouchingDoesNotIntersect | nginx/html/scripts/app/state/boardState/utils/doRectanglesIntersect.js:14 | Boxes that only share an edge do not intersect, in either order. |
| RectangleGeometry.PositiveBoxIntersectsItself | nginx/html/spec/utils-spec.js:350-417 | A tile with positive width and height intersects its own box. |
| RectangleGeometry.MaxPointIsBoxCorner | nginx/html/scripts/app/state/boardState/utils/getMaxPointForRectangle.js:18-21 | The max point of a tile is the max corner of its min/max box. |
| RectangleGeometry.ShiftMovesBox | nginx/html/scripts/app/state/boardState/utils/dragMoveUtils/getRectanglesThatArePushedForward.js:41-44 | Shifting a tile by d on an axis shifts its box's min and max on that axis by d and leaves the other axis alone. |
| RectangleGeometry.Boxes | nginx/html/scripts/app/state/boardState/utils/dragMoveUtils/getRectanglesThatRectangleIntersectsWith.js:15 | One min/max box per tile, in order. |
| RectangleGeometry.FilterIntersecting | nginx/html/scripts/app/state/boardState/utils/dragMoveUtils/getRectanglesThatRectangleIntersectsWith.js:17-20 | The result is an order-preserving sub-list of the boxes. It holds exactly the boxes that intersect the probe. |
| RectangleGeometry.IntersectingBoxes | nginx/html/scripts/app/state/boardState/utils/dragMoveUtils/getRectanglesThatRectangleIntersectsWith.js:13-21 | The result is an order-preserving sub-list of the candidates' boxes, no longer than the candidates. Every returned box intersects the probe and is some candidate's box. Every candidate whose box intersects the probe is returned. |
| RectangleGeometry.IntersectingBoxesCons | nginx/html/scripts/app/state/boardState/utils/dragMoveUtils/getRectanglesThatRectangleIntersectsWith.js:17-20 | The filter keeps the head candidate exactly when it intersects, then filters the rest. |
| Lists.SubListShorter | nginx/html/scripts/app/state/boardState/utils/dragMoveUtils/getRectanglesThatArePushedForward.js:54-58 | A sub-list that misses an element of its list is strictly shorter. This is the resolver's termination measure. |
| NeighbourSelection.FilterInFront | nginx/html/scripts/app/state/boardState/utils/dragMoveUtils/getRectanglesInFrontOfRectangle.js:28-41 | The result is an order-preserving sub-list holding exactly the tiles that pass the direction and lane tests. |
| NeighbourSelection.TilesInFront | nginx/html/scripts/app/state/boardState/utils/dragMoveUtils/getRectanglesInFrontOfRectangle.js:16-42 | A tile is returned if and only if it is in the list, strictly ahead of the reference on the axis (FORWARD: greater, REVERSE: less), and within one tile size on the cross axis. The reference tile is never returned, so the result is strictly shorter than the list. |
| NearestObstacle.Smallest | nginx/html/scripts/app/state/boardState/utils/dragMoveUtils/getSmallestDistanceBetweenRectAndRectanglesInFront.js:14-46 | There is no answer (`Infinity`/`null`) exactly when there are no candidates. Otherwise the answer is a candidate, and its distance is that candidate's gap for the mode and axis. |
| NearestObstacle.SmallestIsFirstMinimum | nginx/html/scripts/app/state/boardState/utils/dragMoveUtils/getSmallestDistanceBetweenRectAndRectanglesInFront.js:35-38 | The answer's gap is no larger than any candidate's. The answer is the earliest candidate with that gap, because ties do not replace it. |
| NearestObstacle.SmallestDistance | nginx/html/scripts/app/state/boardState/utils/dragMoveUtils/getSmallestDistanceBetweenRectAndRectanglesInFront.js:14-46 | The `forEach` loop returns exactly the first-minimum answer above. |
| PushResolver.NextLink | nginx/html/scripts/app/state/boardState/utils/dragMoveUtils/getRectanglesThatArePushedForward.js:49-58 | The next link is the nearest contact's tile and its own candidates, drawn from the current candidates. It has strictly fewer candidates, which gives termination. |
| PushResolver.ForwardStep | nginx/html/scripts/app/state/boardState/utils/dragMoveUtils/getRectanglesThatArePushedForward.js:63-79 | The child's records are kept in order, and one record for the mover, on the push axis only, is appended last. |
| PushResolver.ForwardWall | nginx/html/scripts/app/state/boardState/utils/dragMoveUtils/getRectanglesThatArePushedForward.js:82-101 | With nothing ahead, only the mover is moved, on the push axis only. |
| PushResolver.BackwardStep | nginx/html/scripts/app/state/boardState/utils/dragMoveUtils/getRectanglesThatArePushedBackwards.js:63-79 | The mirror of the forward step: the child's records come first, then the mover's, on the push axis only. |
| PushResolver.BackwardWall | nginx/html/scripts/app/state/boardState/utils/dragMoveUtils/getRectanglesThatArePushedBackwards.js:82-101 | With nothing behind, only the mover is moved, on the push axis only. The wall is at 0. |
| PushResolver.PushForward | nginx/html/scripts/app/state/boardState/utils/dragMoveUtils/getRectanglesThatArePushedForward.js:23-112 | Every record moves the mover or one of its candidates, on the push axis only. On a board at rest, with a request of 1 up to a tile size, the push is sound. Either it is granted in full, or some tile of the chain ends flush with the wall. When the shifted mover hits a candidate, the pushed tile ends exactly one tile size ahead of where the mover ends, so the two touch. |
| PushResolver.PushBackward | nginx/html/scripts/app/state/boardState/utils/dragMoveUtils/getRectanglesThatArePushedBackwards.js:23-111 | The same for a request of -1 down to minus a tile size. The allowance is a magnitude, the wall is at 0, and the pushed tile ends one tile size behind the mover. |
| PushResolver.GapOfHit | nginx/html/scripts/app/state/boardState/utils/dragMoveUtils/getSmallestDistanceBetweenRectAndRectanglesInFront.js:21-33 | For equal squares, a tile ahead that the shifted mover hits lies at a gap of 0 up to \|d\| (excluded). It sits exactly a tile size plus that gap from the mover. |
| PushResolver.ContactTile | nginx/html/scripts/app/state/boardState/utils/dragMoveUtils/getRectanglesThatArePushedForward.js:49-54 | The nearest contact's number finds a candidate whose box is that contact's box. |
| PushResolver.NextResting | nginx/html/scripts/app/state/boardState/utils/dragMoveUtils/getRectanglesThatArePushedForward.js:54-58 | The pushed tile and its candidates, drawn from a resting list, are again at rest. |
| PushResolver.ContactFacts | nginx/html/scripts/app/state/boardState/utils/dragMoveUtils/getRectanglesThatArePushedForward.js:44-58 | On a resting board, the next link is a candidate at a gap of 0 up to \|d\| (excluded). It sits exactly a tile size plus that gap ahead of the mover. |
| PushResolver.ForwardStepSound | nginx/html/scripts/app/state/boardState/utils/dragMoveUtils/getRectanglesThatArePushedForward.js:63-79 | If the child's push is sound, so is the mover's combined push. |
| PushResolver.ForwardWallSound | nginx/html/scripts/app/state/boardState/utils/dragMoveUtils/getRectanglesThatArePushedForward.js:82-101 | The wall case of a forward push is sound. |
| PushResolver.BackwardStepSound | nginx/html/scripts/app/state/boardState/utils/dragMoveUtils/getRectanglesThatArePushedBackwards.js:63-79 | If the child's backward push is sound, so is the mover's combined push. |
| PushResolver.BackwardWallSound | nginx/html/scripts/app/state/boardState/utils/dragMoveUtils/getRectanglesThatArePushedBackwards.js:82-101 | The wall case of a backward push is sound. |
| PushResolver.ForwardLevel | nginx/html/scripts/app/state/boardState/utils/dragMoveUtils/getRectanglesThatArePushedForward.js:44-79 | If the recursive call on the next link is sound, so is the mover's push. |
| PushResolver.BackwardLevel | nginx/html/scripts/app/state/boardState/utils/dragMoveUtils/getRectanglesThatArePushedBackwards.js:44-79 | The backward counterpart of `ForwardLevel`. |
| PushResolver.EndPastOtherRecord | nginx/html/scripts/app/state/boardState/utils/dragMoveUtils/getRectanglesThatArePushedForward.js:74-79 | A record for another tile does not change where a tile ends. |
| PushResolver.CandidateNumbers | nginx/html/scripts/app/state/boardState/utils/dragMoveUtils/getRectanglesThatArePushedForward.js:49-58 | On a resting board, no candidate carries the mover's number. |
| PushResolver.LinkFacts | nginx/html/scripts/app/state/boardState/utils/dragMoveUtils/getRectanglesThatArePushedForward.js:44-58 | On a resting board, the next link is another tile at a gap of 0 up to \|d\| (excluded). It sits exactly a tile size plus that gap ahead of the mover (behind it when pushing backward). |
| PushResolver.ForwardStepReach | nginx/html/scripts/app/state/boardState/utils/dragMoveUtils/getRectanglesThatArePushedForward.js:63-79 | If the pushed tile's own push is granted in full or stopped at the wall, the mover's combined push is granted in full or stopped at the wall. |
| PushResolver.BackwardStepReach | nginx/html/scripts/app/state/boardState/utils/dragMoveUtils/getRectanglesThatArePushedBackwards.js:63-79 | The backward counterpart of `ForwardStepReach`. |
| PushResolver.ForwardWallReach | nginx/html/scripts/app/state/boardState/utils/dragMoveUtils/getRectanglesThatArePushedForward.js:82-101 | With nothing ahead, the mover goes the whole request or ends flush with the wall. |
| PushResolver.BackwardWallReach | nginx/html/scripts/app/state/boardState/utils/dragMoveUtils/getRectanglesThatArePushedBackwards.js:82-101 | With nothing behind, the mover goes the whole request or ends at 0. |
| PushResolver.ForwardStepAbuts | nginx/html/scripts/app/state/boardState/utils/dragMoveUtils/getRectanglesThatArePushedForward.js:63-79 | If the pushed tile starts a tile size plus the gap ahead and moves its own allowance, it ends exactly a tile size ahead of the mover. |
| PushResolver.BackwardStepAbuts | nginx/html/scripts/app/state/boardState/utils/dragMoveUtils/getRectanglesThatArePushedBackwards.js:63-79 | The backward counterpart: the pushed tile ends exactly a tile size behind the mover. |
| PushResolver.ForwardLevelReach | nginx/html/scripts/app/state/boardState/utils/dragMoveUtils/getRectanglesThatArePushedForward.js:44-79 | Given the pushed tile's reach law, the mover's push has the reach law and leaves the mover touching the pushed tile. |
| PushResolver.BackwardLevelReach | nginx/html/scripts/app/state/boardState/utils/dragMoveUtils/getRectanglesThatArePushedBackwards.js:44-79 | The backward counterpart of `ForwardLevelReach`. |
| PushResolver.ForwardChain | nginx/html/scripts/app/state/boardState/utils/dragMoveUtils/getRectanglesThatArePushedForward.js:44-79 | Given the pushed tile's own contract, the mover's push is sound, has the reach law, and leaves the two tiles touching. |
| PushResolver.BackwardChain | nginx/html/scripts/app/state/boardState/utils/dragMoveUtils/getRectanglesThatArePushedBackwards.js:44-79 | The backward counterpart of `ForwardChain`. |
| PushExamples.IntersectionExamples | nginx/html/spec/utils-spec.js:137-178 | A one-unit overlap on both axes intersects. A one-unit gap on X does not, whatever Y does. Both hold in both orders. |
| PushExamples.MaxPointExample | nginx/html/spec/utils-spec.js:114-133 | (10, 20, 100, 100) gives (110, 120). |
| PushExamples.SmallestExample | nginx/html/spec/utils-spec.js:420-459 | Gaps of 3 and 1 give the second box at distance 1. |
| PushExamples.ForwardOverOneTile | nginx/html/scripts/app/state/boardState/utils/dragMoveUtils/getRectanglesThatArePushedForward.js:35-39 | A request above the tile size moves nothing and allows 0. |
| PushExamples.ForwardFlushWithWall | nginx/html/scripts/app/state/boardState/utils/dragMoveUtils/getRectanglesThatArePushedForward.js:82-85 | A tile flush with the wall moves nothing. |
| PushExamples.SingleHitLink | nginx/html/scripts/app/state/boardState/utils/dragMoveUtils/getRectanglesThatArePushedForward.js:49-58 | When the shifted mover hits exactly one candidate, that candidate is the next link. |
| PushExamples.LoneLink | nginx/html/scripts/app/state/boardState/utils/dragMoveUtils/getRectanglesThatArePushedForward.js:49-58 | A lone hit candidate is pushed with nothing left ahead of it. |
| PushExamples.ForwardCloseGap | nginx/html/spec/utils-spec.js:780-857 | A gap of 49 to a tile flush with the wall allows exactly 49. |
| PushExamples.ForwardClampedAtWall | nginx/html/spec/utils-spec.js:1058-1147 | The last tile of the 3-tile chain, 25 short of the wall at 400, stops at 300 with allowance 25. |
| PushExamples.ForwardPushClampedAtWall | nginx/html/spec/utils-spec.js:1058-1147 | The last two tiles of that chain, asked for 75, move to 200 and 300 with allowance 50. |
| PushExamples.ForwardUpToWall | nginx/html/spec/utils-spec.js:947-1056 | The last tile of the 4-tile chain, asked for 25, ends at 400. |
| PushExamples.ForwardPushWithRoom | nginx/html/spec/utils-spec.js:947-1056 | The last two tiles of that chain, asked for 50, end at 300 and 400 with allowance 50. |
| PushExamples.BackwardAtWall | nginx/html/spec/utils-spec.js:1226-1268 | At X 0, a request of -10 moves nothing. |
| PushExamples.BackwardNearWall | nginx/html/spec/utils-spec.js:1270-1364 | At X 10, -11 gives X 0 with allowance 10, and -5 gives X 5 with allowance 5. |
| PushExamples.BackwardSpacedNeighbour | nginx/html/spec/utils-spec.js:1436-1505 | Tiles at 25 and 150 dragged by -50 end at 0 and 100 with allowance 50. |
| AxisDispatcher.AscendingKeys | nginx/html/scripts/app/state/boardState/utils/dragMoveUtils/getWhichRectanglesNeedToMoveAndHowFar.js:40 | The keys of the tile map listed once each, strictly ascending (JS integer-key order). |
| AxisDispatcher.AscendingListingsEqual | nginx/html/scripts/app/state/boardState/utils/dragMoveUtils/getWhichRectanglesNeedToMoveAndHowFar.js:40 | There is only one ascending listing of a key set. |
| AxisDispatcher.TileArray | nginx/html/scripts/app/state/boardState/utils/dragMoveUtils/getWhichRectanglesNeedToMoveAndHowFar.js:40 | `_.map(tileData, t => t)` holds one tile per key, each stored under its own number, and every entry of the map. |
| AxisDispatcher.WellKeyedArray | nginx/html/scripts/app/state/boardState/utils/dragMoveUtils/getWhichRectanglesNeedToMoveAndHowFar.js:40-45 | The array's numbers are unique and are the map's keys. Finding a key in it gives that key's tile. |
| AxisDispatcher.FillRecord | nginx/html/scripts/app/state/boardState/utils/dragMoveUtils/mapOtherCoordinateValuesToResults.js:34-45 | The filled record keeps its number and its own axis. Its `key` coordinate is taken from the tile. |
| AxisDispatcher.MapOtherCoordinateValues | nginx/html/scripts/app/state/boardState/utils/dragMoveUtils/mapOtherCoordinateValuesToResults.js:28-54 | Same length, order and numbers as the records. Each `key` coordinate comes from the tile with that number, and the other coordinate from the record. |
| AxisDispatcher.FillIfAny | nginx/html/scripts/app/state/boardState/utils/dragMoveUtils/getWhichRectanglesNeedToMoveAndHowFar.js:52-54 | Filling happens only when there is a result. It keeps the allowance and fills every record. |
| AxisDispatcher.CheckIfXValuesHaveChanged | nginx/html/scripts/app/state/boardState/utils/dragMoveUtils/checkIfXValuesHaveChanged.js:9-23 | The loop with its `break` answers whether some record's newX differs from its tile's X. It answers false for no result or no records. |
| AxisDispatcher.AxisAttempt | nginx/html/scripts/app/state/boardState/utils/dragMoveUtils/getWhichRectanglesNeedToMoveAndHowFar.js:44-50 | A difference of 0 calls no resolver. Otherwise every record names a board tile and sets only that axis. |
| AxisDispatcher.XPhase | nginx/html/scripts/app/state/boardState/utils/dragMoveUtils/getWhichRectanglesNeedToMoveAndHowFar.js:44-54 | Every record of the X phase names a tile of the map. |
| AxisDispatcher.FillCompletes | nginx/html/scripts/app/state/boardState/utils/dragMoveUtils/mapOtherCoordinateValuesToResults.js:34-45 | After filling, every record has both coordinates, with `key` taken from the board. |
| AxisDispatcher.YAttempt | nginx/html/scripts/app/state/boardState/utils/dragMoveUtils/getWhichRectanglesNeedToMoveAndHowFar.js:60-72 | The Y step gives no result exactly when Y is 0 and X gave none. Otherwise its records name tiles and set Y. |
| AxisDispatcher.YPhase | nginx/html/scripts/app/state/boardState/utils/dragMoveUtils/getWhichRectanglesNeedToMoveAndHowFar.js:69-71 | The Y result's records get X from the board, and each has both coordinates. |
| AxisDispatcher.DragResolution | nginx/html/scripts/app/state/boardState/utils/dragMoveUtils/getWhichRectanglesNeedToMoveAndHowFar.js:22-75 | The result is `undefined` exactly when both differences are 0. Otherwise every record names a board tile and has both coordinates. |
| AxisDispatcher.XPhaseComplete | nginx/html/scripts/app/state/boardState/utils/dragMoveUtils/getWhichRectanglesNeedToMoveAndHowFar.js:52-54 | Every record of the filled X result has both coordinates. |
| AxisDispatcher.TryAxis | nginx/html/scripts/app/state/boardState/utils/dragMoveUtils/getWhichRectanglesNeedToMoveAndHowFar.js:44-50 | The branch on the difference's sign computes `AxisAttempt`. |
| AxisDispatcher.FillResult | nginx/html/scripts/app/state/boardState/utils/dragMoveUtils/getWhichRectanglesNeedToMoveAndHowFar.js:52-54 | The in-place overwrite of `result.acc` computes `FillIfAny`. |
| AxisDispatcher.GetWhichRectanglesNeedToMoveAndHowFar | nginx/html/scripts/app/state/boardState/utils/dragMoveUtils/getWhichRectanglesNeedToMoveAndHowFar.js:22-75 | The method, with its reassigned `result`, computes `DragResolution`. |
| DispatcherProperties.XHasPriority | nginx/html/scripts/app/state/boardState/utils/dragMoveUtils/getWhichRectanglesNeedToMoveAndHowFar.js:57-72 | When the X phase changes some tile's X, it is the final result. The final result changes X exactly when the X phase does. |
| DispatcherProperties.YMovesOnlyAfterStillX | nginx/html/scripts/app/state/boardState/utils/dragMoveUtils/getWhichRectanglesNeedToMoveAndHowFar.js:57-72 | A record that moves a tile on Y comes only from a non-zero Y difference, after an X phase that changed nothing. |
| DispatcherProperties.CandidatesFromBoard | nginx/html/scripts/app/state/boardState/utils/dragMoveUtils/getRectanglesInFrontOfRectangle.js:16-42 | Candidates drawn from the board are board entries, other than the mover and strictly ahead of it. |
| DispatcherProperties.RestingFromBoard | nginx/html/scripts/app/state/boardState/utils/dragMoveUtils/getWhichRectanglesNeedToMoveAndHowFar.js:35-50 | On a board at rest, the dragged tile and its candidates meet the resolver's resting conditions against the walls at tileSize·columns and tileSize·rows. |
| DispatcherProperties.AttemptPlaced | nginx/html/scripts/app/state/boardState/utils/dragMoveUtils/getWhichRectanglesNeedToMoveAndHowFar.js:44-50 | Every record of an axis attempt moves a board tile along that axis only, inside the walls, between its position and position plus the difference. |
| DispatcherProperties.ForwardPlaced | nginx/html/scripts/app/state/boardState/utils/dragMoveUtils/getWhichRectanglesNeedToMoveAndHowFar.js:44-50 | Every record of a forward push from a board at rest moves a board tile along the axis, inside the walls, by at most the difference. |
| DispatcherProperties.BackwardPlaced | nginx/html/scripts/app/state/boardState/utils/dragMoveUtils/getWhichRectanglesNeedToMoveAndHowFar.js:44-50 | The same for a backward push. |
| DispatcherProperties.FilledPlaced | nginx/html/scripts/app/state/boardState/utils/dragMoveUtils/mapOtherCoordinateValuesToResults.js:28-54 | Filling keeps every record's placement, and the filled coordinate is the tile's own, so the tile does not move on the other axis. |
| DispatcherProperties.XPhasePlaced | nginx/html/scripts/app/state/boardState/utils/dragMoveUtils/getWhichRectanglesNeedToMoveAndHowFar.js:44-54 | X-phase records move tiles within the X drag and not at all on Y. |
| DispatcherProperties.YPhasePlaced | nginx/html/scripts/app/state/boardState/utils/dragMoveUtils/getWhichRectanglesNeedToMoveAndHowFar.js:60-72 | Y-phase records move tiles within the Y drag and not at all on X. |
| DispatcherProperties.DragKeepsTilesOnBoard | nginx/html/scripts/app/state/boardState/utils/dragMoveUtils/getWhichRectanglesNeedToMoveAndHowFar.js:22-75 | On a board at rest, every record of the resolution keeps its tile between the walls and moves it no further than the drag, in the drag's direction, on each axis. |
| TileState.HashOf | nginx/html/scripts/app/state/boardState/utils/createTileState.js:80-86 | The hash has exactly the tiles' numbers as keys, each stored under its own number, and holds only listed tiles. Each tile is the entry for its number unless a later tile has the same number, since a later write replaces an earlier one. |
| TileState.CreateTileState | nginx/html/scripts/app/state/boardState/utils/createTileState.js:57-89 | The `forEach` filling the hash computes `TileMap`. |
| TileState.RowTilesCells | nginx/html/scripts/app/state/boardState/utils/createTileState.js:14-36 | A row's tiles are exactly the fresh tiles of its non-zero cells: X = c·size, Y = r·size, square, not dragging, null drag fields. |
| TileState.BoardTilesCells | nginx/html/scripts/app/state/boardState/utils/createTileState.js:58-78 | The board's tiles are exactly the fresh tiles of its non-zero cells. |
| TileState.TileMapEntries | nginx/html/scripts/app/state/boardState/utils/createTileState.js:57-89 | The keys are exactly the non-zero numbers. Every entry is stored under its own number and is the fresh tile of a cell holding it. |
| TileState.TileMapCells | nginx/html/scripts/app/state/boardState/utils/createTileState.js:57-89 | With distinct numbers, each non-zero cell's number maps to that cell's fresh tile. |
| TileState.CellNumber | nginx/html/scripts/app/state/boardState/utils/getBoardModelFromTileData.js:34-46 | A cell holds the number of the first tile at that position, or 0 when there is none. |
| TileState.MaxIndex | nginx/html/scripts/app/state/boardState/utils/getBoardModelFromTileData.js:27-28 | `Math.max` is an upper bound reached by some tile. |
| TileState.BoardModel | nginx/html/scripts/app/state/boardState/utils/getBoardModelFromTileData.js:22-51 | The grid has max row + 1 rows of max column + 1 cells. Each cell holds the number of the first tile at that position, or 0. |
| TileState.CellsAgree | nginx/html/scripts/app/state/boardState/utils/getBoardModelFromTileData.js:34-46 | Looking up a cell among the board's own tiles gives that cell's number. |
| TileState.MaxRowIsLast | nginx/html/scripts/app/state/boardState/utils/getBoardModelFromTileData.js:28 | When the last row holds a tile, the largest row is the last row. |
| TileState.MaxColumnIsLast | nginx/html/scripts/app/state/boardState/utils/getBoardModelFromTileData.js:27 | When the last column holds a tile, the largest column is the last column. |
| TileState.BoardRoundTrip | nginx/html/scripts/app/state/boardState/utils/getBoardModelFromTileData.js:8-51 | A rectangular board of distinct numbers, with a tile in its last row and in its last column, comes back unchanged from `createTileState` then `getBoardModelFromTileData`. |
| TileState.ModelOfListedCells | nginx/html/scripts/app/state/boardState/utils/getBoardModelFromTileData.js:22-51 | Any tile map whose tiles are exactly the board's tiles gives the board back. |
| BoardSetup.Pool | nginx/html/scripts/app/state/boardState/utils/createArrayOfNumbers.js:16 | `_.range(1, total)` has total − 1 entries and no 0. Together with 0 it is 0 .. total − 1. |
| BoardSetup.Deal | nginx/html/scripts/app/state/boardState/utils/createArrayOfNumbers.js:24-27 | Dealing a pool entry keeps the dealt numbers and the pool together as the same multiset, and deals no 0. |
| BoardSetup.DealEnd | nginx/html/scripts/app/state/boardState/utils/createArrayOfNumbers.js:19-30 | Once every cell is dealt, the list holds each of 0 .. total − 1 once, with its only 0 at the blank index. |
| BoardSetup.CreateArrayOfNumbers | nginx/html/scripts/app/state/boardState/utils/createArrayOfNumbers.js:13-31 | The result has columns·rows entries and holds each of 0 .. total − 1 exactly once. Its only 0 is at the blank index, which with two or more cells is never the last. |
| BoardSetup.FlattenRowMajor | nginx/html/scripts/app/state/boardState/utils/createBoard.js:24-26 | Cell (r, c) of a rectangular board is entry r·columns + c of its rows laid end to end. |
| BoardSetup.CreateBoard | nginx/html/scripts/app/state/boardState/utils/createBoard.js:17-31 | The board has `rows` rows of `columns` cells. Its rows laid end to end are the shuffled list. |
| BoardSetup.ShuffledDistinct | nginx/html/spec/utils-spec.js:41-57 | A shuffled list holds no number twice. |
| BoardSetup.DealtKeysAreIndices | nginx/html/scripts/app/state/boardState/utils/createBoard.js:17-31 | Every key of a dealt board's tile map lies strictly between 0 and columns*rows, so it is an array index. |
| BoardSetup.NewBoardRoundTrip | nginx/html/scripts/app/state/boardState/utils/createBoard.js:17-31 | A dealt board with two or more cells survives the tile-map round trip. |
| History.UndoEmpty | nginx/html/scripts/app/state/boardState/ApplicationHistory.js:49-50 | Undo on an empty undo stack returns nothing and changes nothing. |
| History.UndoSingle | nginx/html/scripts/app/state/boardState/ApplicationHistory.js:51-52 | Undo with one state returns it and leaves both stacks as they were. |
| History.UndoKeepsCurrent | nginx/html/scripts/app/state/boardState/ApplicationHistory.js:46-62 | Undo never empties a non-empty undo stack and loses or invents no state. What it returns is the new top of the undo stack. |
| History.UndoRedoKeepStates | nginx/html/scripts/app/state/boardState/ApplicationHistory.js:46-80 | Undo and redo only move states between the stacks. Every state left on a stack, and the state returned, was already on a stack (undo returns from the undo stack, redo from the redo stack). |
| History.RedoEmpty | nginx/html/scripts/app/state/boardState/ApplicationHistory.js:72-73 | Redo on an empty redo stack returns nothing and changes nothing. |
| History.UndoThenRedo | nginx/html/spec/applicationHistory-spec.js:77-97 | With two or more states, undo then redo restores both stacks and returns the state undo moved away. |
| History.RedoThenUndo | nginx/html/scripts/app/state/boardState/ApplicationHistory.js:69-80 | Redo then undo restores both stacks and returns the previous top. |
| History.PushThenRedo | nginx/html/spec/applicationHistory-spec.js:99-117 | After a push, redo returns nothing, and undo returns the previous top (or the pushed state if it is alone). |
| History.ApplicationHistory.constructor | nginx/html/scripts/app/state/boardState/ApplicationHistory.js:5-8 | A new history has both stacks empty. |
| History.ApplicationHistory.PopulateWithState | nginx/html/scripts/app/state/boardState/ApplicationHistory.js:16-18 | The given states become the undo stack, and the redo stack is untouched. |
| History.ApplicationHistory.GetStateStack | nginx/html/scripts/app/state/boardState/ApplicationHistory.js:25-27 | Returns the undo stack. |
| History.ApplicationHistory.PushState | nginx/html/scripts/app/state/boardState/ApplicationHistory.js:35-38 | The redo stack is emptied and the state goes on top of the undo stack. |
| History.ApplicationHistory.Undo | nginx/html/scripts/app/state/boardState/ApplicationHistory.js:46-62 | The stacks and the answer are those of `Undone`, whose cases are the lemmas above. |
| History.ApplicationHistory.Redo | nginx/html/scripts/app/state/boardState/ApplicationHistory.js:69-80 | The stacks and the answer are those of `Redone`. |
| BoardStateReducer.MovedTiles | nginx/html/scripts/app/state/boardState/boardStateReducer.js:117-122 | No tile is added or removed, and the map stays keyed by number. A tile no record names is unchanged. Any other tile is unchanged or has the X/Y of a record naming it. |
| BoardStateReducer.MovedTilesLastRecord | nginx/html/scripts/app/state/boardState/boardStateReducer.js:117-122 | When no later record names the same tile, that tile ends at the X/Y of that record: the last record for a tile wins. |
| BoardStateReducer.MovedTilesRecordAt | nginx/html/scripts/app/state/boardState/boardStateReducer.js:117-122 | The same law for one record, given by its index. |
| BoardStateReducer.ApplyMoves | nginx/html/scripts/app/state/boardState/boardStateReducer.js:117-122 | The `forEach` loop computes `MovedTiles`. |
| BoardStateReducer.Resolution | nginx/html/scripts/app/state/boardState/boardStateReducer.js:93-114 | For a dragging tile with a non-zero delta, the dispatcher always answers. Its records name tiles of the map and set both coordinates. |
| BoardStateReducer.Moved | nginx/html/scripts/app/state/boardState/boardStateReducer.js:86-128 | A move keeps the tile numbers, the dragged tile's dragging flag, the tile size and the board size. |
| BoardStateReducer.Reduced | nginx/html/scripts/app/state/boardState/boardStateReducer.js:41-161 | POPULATE leaves a history holding just the new state. Every other action keeps a history if and only if there was one. |
| BoardStateReducer.PopulateEffect | nginx/html/scripts/app/state/boardState/boardStateReducer.js:53-61 | The tile map is `createTileState` of the model, keyed by the non-zero numbers. Size, columns (first row's length) and rows (row count) are set, ignoring the action's counts. The history is reset to just the new state. |
| BoardStateReducer.DragStartEffect | nginx/html/scripts/app/state/boardState/boardStateReducer.js:62-73 | Only the named tile changes. It is dragging, its rectangle start is its current X/Y, and its event start is the action's. Its number, size, cell and position, the board size and the history are unchanged. |
| BoardStateReducer.DragEndEffect | nginx/html/scripts/app/state/boardState/boardStateReducer.js:74-85 | Only the named tile changes. It stops dragging, and its four drag fields are null. Its number, size, cell and position, the board size and the history are unchanged. |
| BoardStateReducer.ReducedKeepsWellKeyed | nginx/html/scripts/app/state/boardState/boardStateReducer.js:41-161 | Every action keeps the tile map keyed by tile number, both in the new state and in every state the history holds. So the keying a move needs survives any run of actions. |
| BoardStateReducer.IgnoredMove | nginx/html/scripts/app/state/boardState/boardStateReducer.js:91-92 | A move of a tile that is not dragging changes neither the state nor the history. |
| BoardStateReducer.StillMove | nginx/html/scripts/app/state/boardState/boardStateReducer.js:93-96 | Both deltas 0 leave the state as it was. The history records it again. |
| BoardStateReducer.MoveEffect | nginx/html/scripts/app/state/boardState/boardStateReducer.js:86-144 | A real move applies exactly the dispatcher's records to the map and pushes the new state on the history. |
| BoardStateReducer.MoveKeepsTilesOnBoard | nginx/html/scripts/app/state/boardState/boardStateReducer.js:93-122 | On a board at rest, after a move every tile is between the walls and has moved no further than the drag asked, nor against it, on each axis. |
| BoardStateReducer.DraggingMovePushes | nginx/html/scripts/app/state/boardState/boardStateReducer.js:138-144 | Every move of a dragging tile pushes the state it produces. |
| BoardStateReducer.UndoRedoAfterPush | nginx/html/scripts/app/state/boardState/boardStateReducer.js:145-157 | Right after a push, undo returns the previous state. Redo then returns the pushed state, with the stacks restored. |
| BoardStateReducer.UndoRedoAfterMove | nginx/html/spec/boardState-spec.js:348-441 | Undo after a drag move returns the state on top of the undo stack before the move, not the state right before it. DRAG_START is not pushed, so after the first move of a drag this is the state from before the drag began. Redo then returns the moved state, and the history ends as it was after the move. |
| BoardStateReducer.ProduceMove | nginx/html/scripts/app/state/boardState/boardStateReducer.js:86-128 | The DRAG_MOVE draft update computes `Moved`. |
| BoardStateReducer.BoardStateStore.constructor | nginx/html/scripts/app/state/boardState/boardStateReducer.js:32 | The module starts with no history. |
| BoardStateReducer.BoardStateStore.BoardStateReducer | nginx/html/scripts/app/state/boardState/boardStateReducer.js:41-161 | The returned state and the updated history are those of `Reduced`. |

**What a push promises on a board at rest.** `PushForward` and `PushBackward` carry a guarded soundness clause. Its guard is a board at rest:
- equal squares inside the walls;
- no two of them overlapping;
- candidates strictly ahead of the mover;
- unique numbers;
- a request in the push direction.

Under that guard, the push is `Sound`:
- the allowance is between 0 and |request|;
- no records means no movement;
- otherwise the mover's record comes last, moved by exactly the allowance;
- every record moves one of the tiles in the push direction by at most |request| and keeps it inside the walls.

For a request of at most one tile size, the push also reaches as far as it can:
- either the allowance is the whole request, or some tile of the chain ends flush with the wall (each tile ends at its last record, or where it is if it has none);
- when the shifted mover hits a tile, that tile ends exactly one tile size past where the mover ends, so a pushed tile abuts its pusher.

## Left out

- The rendering and wiring files (Tile.js, TilePuzzle.js, PuzzleContainer.js, main.js) are not part of this model. They hold PIXI drawing, DOM and keyboard/mouse events, and URL parsing, none of it board logic.
- The action creators and key enums are plain records and field names. They are the `Action` constructors and the `BoardState` / `Tile` field names.
- Redux `createStore` and immer `produce` are not modelled. The reducer is a value update, so reference identity and structural sharing become value equality.
- `getRandomNumberWithMaximum` (`Math.random`) is replaced by draw inputs that satisfy `Drawn`.
- Coordinates are integers. Non-integer, NaN and infinite values are not modelled. `parseInt` is applied only to the tile number handed to the dispatcher (boardStateReducer.js:104), where it is the identity on integers. The drag coordinates enter the deltas unconverted (boardStateReducer.js:93-94).
- Negative tile numbers: JS lists such keys after the array-index keys, in insertion order, while `TileArray` sorts all keys ascending. The tie-break of `Smallest` and the first match of `CellNumber` could then differ from JS. `createBoard` never deals a negative number.
- `BoardSetup.CreateArrayOfNumbers`: requires at least one column and one row. For non-positive dimensions, lodash's `_.range` counts down and the JS result is not a board.
- `BoardSetup.CreateBoard`: the same requirement on the dimensions, for the same reason.
- `TileState.BoardModel`: requires a non-empty map. On an empty map `Math.max` gives -Infinity and `_.range` fails.
- A lookup that misses is a crash in JS (reading a field of `undefined`). The model makes it a precondition. This covers a resolver record whose number is not on the board, a drag of a tile not in the map, and a map not keyed by tile number.
- `BoardStateReducer.Reduced`: requires a history before a move of a dragging tile, an undo or a redo. In JS the module-level history is `undefined` until the first POPULATE, and those actions would crash.
- `PushResolver.PushForward`: after a push, tiles may still overlap. Only the nearest chain in the mover's lane is pushed; a second contact in the lane is not. So the model proves that each record stays within the drag and between the walls, that the push goes the whole request or stops at the wall, and that each pushed tile abuts its pusher. It does not prove that the board stays free of overlaps.
- `PushResolver.PushBackward`: the same limit as `PushForward`.
- The recursive call filters the pushed tile's candidates from the mover's own candidate list, as the code does (getRectanglesThatArePushedForward.js:56-58, getRectanglesThatArePushedBackwards.js:55).
- `History.ApplicationHistory.PopulateWithState`: the array passed in is stored by reference in JS. Later mutation through another alias is not modelled, because sequences are values.
- Some test cases are not restated as concrete lemmas, because unfolding the recursive resolver on them is too costly for the verifier:
  - the complete 3- and 4-tile chains;
  - the 2-tile request of 100;
  - the backward flush neighbour;
  - the dispatcher's free-move and flush-to-wall examples;
  - the reducer's 80-pixel push test.

  The chain cases are covered by their last links (`ForwardClampedAtWall`, `ForwardPushClampedAtWall`, `ForwardUpToWall`, `ForwardPushWithRoom`) and by the general soundness and reach clauses.
- `getDefaultState` is the function `GetDefaultState`. It has no contract beyond its value (an empty map and three `None`).
