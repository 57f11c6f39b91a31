/**
 * The board-state reducer: the state (tile map, tile size, board columns and rows), the six
 * actions, what each action does to the state, and the undo/redo history the reducer keeps
 * beside it in a module-level singleton.
 */
module BoardStateReducer {
  import opened Wrappers
  import opened Tiles
  import opened PushResolver
  import opened AxisDispatcher
  import opened DispatcherProperties
  import opened TileState
  import opened History

  /** The BOARD_STATE_KEY fields; `null` is `None`. */
  datatype BoardState = BoardState(
    tileData: map<int, Tile>,
    tileSize: Option<int>,
    boardColumns: Option<int>,
    boardRows: Option<int>)

  /** The records the action creators build, one constructor per BOARD_STATE_ACTION_TYPE. */
  datatype Action =
    | PopulateBoardStateData(boardModel: Board, tileSize: int, numberOfColumns: int, numberOfRows: int)
    | DragStart(number: int, eventDragStartX: int, eventDragStartY: int)
    | DragEnd(number: int)
    | DragMove(number: int, x: int, y: int)
    | Undo
    | Redo

  /** `getDefaultState`: no tiles, and no size, columns or rows. */
  function GetDefaultState(): BoardState
  {
    BoardState(map[], None, None, None)
  }

  /** `state || getDefaultState()`. */
  function Current(state: Option<BoardState>): BoardState
  {
    if state.Some? then state.value else GetDefaultState()
  }

  /** A JS number that may be `null`, as it takes part in arithmetic (`null` counts as 0). */
  function Num(v: Option<int>): int
  {
    if v.Some? then v.value else 0
  }

  /** DRAG_START (lines 63-71): the tile is marked as dragging and remembers where the drag began. */
  function StartDrag(t: Tile, eventDragStartX: int, eventDragStartY: int): Tile
  {
    t.(isDragging := true,
       rectangleStartingDragX := Some(t.x), rectangleStartingDragY := Some(t.y),
       eventDragStartX := Some(eventDragStartX), eventDragStartY := Some(eventDragStartY))
  }

  /** DRAG_END (lines 75-83): the tile is no longer dragging and forgets the drag's start. */
  function EndDrag(t: Tile): Tile
  {
    t.(isDragging := false,
       rectangleStartingDragX := None, rectangleStartingDragY := None,
       eventDragStartX := None, eventDragStartY := None)
  }

  /**
   * Lines 93-94: how far the tile must still travel on `axis` for its position to follow the
   * pointer: pointer - event start + rectangle start - current position.
   */
  function MoveDelta(t: Tile, pointer: int, axis: Axis): int
  {
    if axis == X then pointer - Num(t.eventDragStartX) + Num(t.rectangleStartingDragX) - t.x
    else pointer - Num(t.eventDragStartY) + Num(t.rectangleStartingDragY) - t.y
  }

  /** Lines 98-113: the board dimensions handed to the dispatcher. */
  function Dimensions(s: BoardState): BoardDimensions
  {
    BoardDimensions(Num(s.boardColumns), Num(s.boardRows), Num(s.tileSize))
  }

  /** A resolver record with both coordinates set. */
  predicate Complete(rec: Record)
  {
    rec.newX.Some? && rec.newY.Some?
  }

  /** Lines 119-120: the tile moved to the record's coordinates. */
  function Relocated(t: Tile, rec: Record): Tile
    requires Complete(rec)
  {
    t.(x := rec.newX.value, y := rec.newY.value)
  }

  /**
   * The `forEach` of lines 117-122 as a value: each record in turn sets the X and Y of the tile
   * it names. No tile is added or removed; a tile no record names is unchanged; any other tile
   * keeps every field but X and Y, which come from a record naming it.
   */
  function MovedTiles(m: map<int, Tile>, acc: seq<Record>): (r: map<int, Tile>)
    requires forall rec :: rec in acc ==> rec.number in m && Complete(rec)
    ensures r.Keys == m.Keys
    ensures WellKeyed(m) ==> WellKeyed(r)
    ensures forall k :: k in m && (forall rec :: rec in acc ==> rec.number != k) ==> r[k] == m[k]
    ensures forall k :: k in m ==>
      r[k] == m[k] || exists rec :: rec in acc && rec.number == k && r[k] == Relocated(m[k], rec)
    decreases |acc|
  {
    if |acc| == 0 then m
    else
      var rec := acc[0];
      assert forall q :: q in acc[1..] ==> q in acc;
      MovedTiles(m[rec.number := Relocated(m[rec.number], rec)], acc[1..])
  }

  /** One step of the `forEach`: the first record applied, then the rest. */
  lemma MovedTilesStep(m: map<int, Tile>, acc: seq<Record>)
    requires forall rec :: rec in acc ==> rec.number in m && Complete(rec)
    requires |acc| > 0
    ensures var m' := m[acc[0].number := Relocated(m[acc[0].number], acc[0])];
      (forall rec :: rec in acc[1..] ==> rec.number in m' && Complete(rec))
      && MovedTiles(m, acc) == MovedTiles(m', acc[1..])
  {
    assert forall q :: q in acc[1..] ==> q in acc;
  }

  /** The first record, when no later record names its tile, decides where that tile ends. */
  lemma MovedTilesFirstRecord(m: map<int, Tile>, acc: seq<Record>)
    requires forall rec :: rec in acc ==> rec.number in m && Complete(rec)
    requires |acc| > 0 && forall j :: 0 < j < |acc| ==> acc[j].number != acc[0].number
    ensures MovedTiles(m, acc)[acc[0].number] == Relocated(m[acc[0].number], acc[0])
  {
    MovedTilesStep(m, acc);
    var rest := acc[1..];
    forall q | q in rest ensures q.number != acc[0].number {
      var j :| 0 <= j < |rest| && rest[j] == q;
      assert acc[j + 1] == q;
    }
  }

  /** The record at index `i`, when no later record names its tile, decides where that tile ends. */
  lemma {:induction false} MovedTilesRecordAt(m: map<int, Tile>, acc: seq<Record>, i: int)
    requires forall rec :: rec in acc ==> rec.number in m && Complete(rec)
    requires 0 <= i < |acc| && forall j :: i < j < |acc| ==> acc[j].number != acc[i].number
    ensures MovedTiles(m, acc)[acc[i].number] == Relocated(m[acc[i].number], acc[i])
    decreases |acc|
  {
    if i == 0 {
      MovedTilesFirstRecord(m, acc);
    } else {
      MovedTilesStep(m, acc);
      var m' := m[acc[0].number := Relocated(m[acc[0].number], acc[0])];
      var rest := acc[1..];
      assert rest[i - 1] == acc[i];
      forall j | i - 1 < j < |rest| ensures rest[j].number != rest[i - 1].number {
        assert rest[j] == acc[j + 1];
      }
      MovedTilesRecordAt(m', rest, i - 1);
    }
  }

  /**
   * A tile named by a record that no later record names ends at that record's X and Y: the
   * `forEach` leaves each tile where its last record puts it.
   */
  lemma MovedTilesLastRecord(m: map<int, Tile>, acc: seq<Record>)
    requires forall rec :: rec in acc ==> rec.number in m && Complete(rec)
    ensures forall i :: 0 <= i < |acc| && (forall j :: i < j < |acc| ==> acc[j].number != acc[i].number) ==>
      MovedTiles(m, acc)[acc[i].number] == Relocated(m[acc[i].number], acc[i])
  {
    forall i | 0 <= i < |acc| && (forall j :: i < j < |acc| ==> acc[j].number != acc[i].number)
      ensures MovedTiles(m, acc)[acc[i].number] == Relocated(m[acc[i].number], acc[i])
    {
      MovedTilesRecordAt(m, acc, i);
    }
  }

  /** Lines 117-122: the records applied to the tile map one after the other. */
  method ApplyMoves(tileMapData: map<int, Tile>, acc: seq<Record>) returns (result: map<int, Tile>)
    requires forall rec :: rec in acc ==> rec.number in tileMapData && Complete(rec)
    ensures result == MovedTiles(tileMapData, acc)
  {
    result := tileMapData;
    var i := 0;
    while i < |acc|
      invariant 0 <= i <= |acc|
      invariant result.Keys == tileMapData.Keys
      invariant MovedTiles(result, acc[i..]) == MovedTiles(tileMapData, acc)
    {
      var rec := acc[i];
      assert acc[i..][1..] == acc[i + 1..];
      result := result[rec.number := Relocated(result[rec.number], rec)];
      i := i + 1;
    }
  }

  /** The tile a drag action names is dragging and has been asked to move on at least one axis. */
  predicate MovesTile(s: BoardState, n: int, x: int, y: int)
    requires n in s.tileData
  {
    s.tileData[n].isDragging && !(MoveDelta(s.tileData[n], x, X) == 0 && MoveDelta(s.tileData[n], y, Y) == 0)
  }

  /**
   * What the `produce` step needs of its input, beyond which it fails: a populated board model
   * has a first row (line 59); a drag names a tile of the map (lines 63, 75, 89); and a drag
   * that moves needs the map keyed by tile number, as `createTileState` builds it, for the
   * dispatcher.
   */
  predicate Producible(s: BoardState, action: Action)
  {
    match action
    case PopulateBoardStateData(boardModel, _, _, _) => |boardModel| > 0
    case DragStart(n, _, _) => n in s.tileData
    case DragEnd(n) => n in s.tileData
    case DragMove(n, x, y) => n in s.tileData && (MovesTile(s, n, x, y) ==> WellKeyed(s.tileData))
    case Undo => true
    case Redo => true
  }

  /**
   * What the reducer needs of its input: what `produce` needs, and a history made by an earlier
   * POPULATE before a move of a dragging tile, an undo or a redo (lines 142, 146, 153).
   */
  predicate Accepts(state: Option<BoardState>, history: Option<Stacks<BoardState>>, action: Action)
  {
    var s := Current(state);
    Producible(s, action)
    && match action
      case DragMove(n, _, _) => s.tileData[n].isDragging ==> history.Some?
      case Undo => history.Some?
      case Redo => history.Some?
      case _ => true
  }

  /** POPULATE_BOARD_STATE_DATA (lines 51-60): the tile map, and the board size read off the model. */
  function Populated(boardModel: Board, tileSize: int): BoardState
    requires |boardModel| > 0
  {
    BoardState(TileMap(boardModel, tileSize), Some(tileSize), Some(|boardModel[0]|), Some(|boardModel|))
  }

  /** DRAG_START (lines 62-72) on the state. */
  function Started(s: BoardState, n: int, eventDragStartX: int, eventDragStartY: int): BoardState
    requires n in s.tileData
  {
    s.(tileData := s.tileData[n := StartDrag(s.tileData[n], eventDragStartX, eventDragStartY)])
  }

  /** DRAG_END (lines 74-84) on the state. */
  function Ended(s: BoardState, n: int): BoardState
    requires n in s.tileData
  {
    s.(tileData := s.tileData[n := EndDrag(s.tileData[n])])
  }

  /** Lines 95-114: the dispatcher's answer for a move that goes somewhere; it always has one. */
  function Resolution(s: BoardState, n: int, x: int, y: int): (r: Option<Push>)
    requires n in s.tileData && MovesTile(s, n, x, y) && WellKeyed(s.tileData)
    ensures r.Some? && forall rec :: rec in r.value.acc ==> rec.number in s.tileData && Complete(rec)
  {
    var t := s.tileData[n];
    DragResolution(DragMoveInfo(n, MoveDelta(t, x, X), MoveDelta(t, y, Y)), s.tileData, Dimensions(s))
  }

  /**
   * DRAG_MOVE (lines 86-128) on the state: nothing happens unless the tile is dragging and has
   * somewhere to go; then the dispatcher's records are applied. The tile numbers, the dragging
   * flags, the tile size and the board size stay as they were.
   */
  function Moved(s: BoardState, n: int, x: int, y: int): (r: BoardState)
    requires n in s.tileData && (MovesTile(s, n, x, y) ==> WellKeyed(s.tileData))
    ensures r.tileData.Keys == s.tileData.Keys && (WellKeyed(s.tileData) ==> WellKeyed(r.tileData))
    ensures r.tileData[n].isDragging == s.tileData[n].isDragging
    ensures r.tileSize == s.tileSize && r.boardColumns == s.boardColumns && r.boardRows == s.boardRows
  {
    if !MovesTile(s, n, x, y) then s
    else
      var moved := MovedTiles(s.tileData, Resolution(s, n, x, y).value.acc);
      assert moved[n].isDragging == s.tileData[n].isDragging;
      s.(tileData := moved)
  }

  /**
   * `boardStateReducer` with the history (lines 41-161): the state `produce` makes of the
   * action (lines 49-130), then the history
   * step of lines 133-158. POPULATE starts a new history holding just the new state; a move of a
   * dragging tile records the new state; UNDO and REDO return the state the history gives back,
   * if it gives one.
   */
  function Reduced(state: Option<BoardState>, history: Option<Stacks<BoardState>>, action: Action)
    : (r: (BoardState, Option<Stacks<BoardState>>))
    requires Accepts(state, history, action)
    ensures action.PopulateBoardStateData? ==> r.1 == Some(Stacks([r.0], []))
    ensures !action.PopulateBoardStateData? ==> r.1.Some? == history.Some?
  {
    var s := Current(state);
    match action
    case PopulateBoardStateData(boardModel, tileSize, _, _) =>
      var newState := Populated(boardModel, tileSize);
      assert Pushed(Stacks([], []), newState).undo == [newState];
      (newState, Some(Pushed(Stacks([], []), newState)))
    case DragStart(n, ex, ey) => (Started(s, n, ex, ey), history)
    case DragEnd(n) => (Ended(s, n), history)
    case DragMove(n, x, y) =>
      var newState := Moved(s, n, x, y);
      if newState.tileData[n].isDragging then (newState, Some(Pushed(history.value, newState)))
      else (newState, history)
    case Undo =>
      var (stacks, previousState) := Undone(history.value);
      (if previousState.Some? then previousState.value else s, Some(stacks))
    case Redo =>
      var (stacks, nextState) := Redone(history.value);
      (if nextState.Some? then nextState.value else s, Some(stacks))
  }

  /** The fields a drag never touches: the tile's number, size and cell. */
  predicate SameIdentity(a: Tile, b: Tile)
  {
    a.number == b.number && a.width == b.width && a.height == b.height && a.column == b.column && a.row == b.row
  }

  // ----- what each action does -----

  /**
   * POPULATE: the tile map is `createTileState` of the board model, keyed by tile number; the
   * columns are the first row's length and the rows the row count, whatever the action says; and
   * the history is reset to hold just the new state.
   */
  lemma PopulateEffect(state: Option<BoardState>, history: Option<Stacks<BoardState>>, boardModel: Board,
                       tileSize: int, numberOfColumns: int, numberOfRows: int)
    requires |boardModel| > 0
    ensures var (s, h) := Reduced(state, history, PopulateBoardStateData(boardModel, tileSize, numberOfColumns, numberOfRows));
      s.tileData == TileMap(boardModel, tileSize) && WellKeyed(s.tileData)
      && s.tileData.Keys == NonZeroNumbers(boardModel)
      && s.tileSize == Some(tileSize) && s.boardColumns == Some(|boardModel[0]|) && s.boardRows == Some(|boardModel|)
      && h == Some(Stacks([s], []))
  {
    TileMapEntries(boardModel, tileSize);
  }

  /**
   * DRAG_START changes only the named tile: it becomes dragging, its rectangle start is its
   * current position, its event start is the action's, and its position is unchanged.
   */
  lemma DragStartEffect(state: Option<BoardState>, history: Option<Stacks<BoardState>>, n: int, ex: int, ey: int)
    requires n in Current(state).tileData
    ensures var (s, h) := Reduced(state, history, DragStart(n, ex, ey));
      var m := Current(state).tileData;
      h == history && s.tileData.Keys == m.Keys
      && s.tileSize == Current(state).tileSize && s.boardColumns == Current(state).boardColumns
      && s.boardRows == Current(state).boardRows
      && (forall k :: k in m && k != n ==> s.tileData[k] == m[k])
      && s.tileData[n].isDragging && SameIdentity(s.tileData[n], m[n])
      && s.tileData[n].x == m[n].x && s.tileData[n].y == m[n].y
      && s.tileData[n].rectangleStartingDragX == Some(m[n].x) && s.tileData[n].rectangleStartingDragY == Some(m[n].y)
      && s.tileData[n].eventDragStartX == Some(ex) && s.tileData[n].eventDragStartY == Some(ey)
  {
  }

  /** DRAG_END changes only the named tile: it stops dragging and its four drag fields are cleared. */
  lemma DragEndEffect(state: Option<BoardState>, history: Option<Stacks<BoardState>>, n: int)
    requires n in Current(state).tileData
    ensures var (s, h) := Reduced(state, history, DragEnd(n));
      var m := Current(state).tileData;
      h == history && s.tileData.Keys == m.Keys
      && s.tileSize == Current(state).tileSize && s.boardColumns == Current(state).boardColumns
      && s.boardRows == Current(state).boardRows
      && (forall k :: k in m && k != n ==> s.tileData[k] == m[k])
      && !s.tileData[n].isDragging && SameIdentity(s.tileData[n], m[n])
      && s.tileData[n].x == m[n].x && s.tileData[n].y == m[n].y
      && s.tileData[n].rectangleStartingDragX.None? && s.tileData[n].rectangleStartingDragY.None?
      && s.tileData[n].eventDragStartX.None? && s.tileData[n].eventDragStartY.None?
  {
  }

  /** Every state a history holds has its tile map keyed by tile number. */
  predicate WellKeyedHistory(history: Option<Stacks<BoardState>>)
  {
    history.Some? ==>
      (forall b :: b in history.value.undo ==> WellKeyed(b.tileData))
      && (forall b :: b in history.value.redo ==> WellKeyed(b.tileData))
  }

  /**
   * Every action keeps the tile map keyed by tile number, in the state and in every state the
   * history holds, so a move of a dragging tile after any run of actions finds its tile map keyed
   * as the dispatcher needs.
   */
  lemma ReducedKeepsWellKeyed(state: Option<BoardState>, history: Option<Stacks<BoardState>>, action: Action)
    requires Accepts(state, history, action)
    requires WellKeyed(Current(state).tileData) && WellKeyedHistory(history)
    ensures var (s, h) := Reduced(state, history, action);
      WellKeyed(s.tileData) && WellKeyedHistory(h)
  {
    var s := Current(state);
    match action
    case PopulateBoardStateData(boardModel, tileSize, _, _) =>
      TileMapEntries(boardModel, tileSize);
    case DragStart(n, ex, ey) =>
    case DragEnd(n) =>
    case DragMove(n, x, y) =>
    case Undo =>
      UndoRedoKeepStates(history.value);
    case Redo =>
      UndoRedoKeepStates(history.value);
  }

  /** A move of a tile that is not dragging changes neither the state nor the history. */
  lemma IgnoredMove(state: Option<BoardState>, history: Option<Stacks<BoardState>>, n: int, x: int, y: int)
    requires n in Current(state).tileData && !Current(state).tileData[n].isDragging
    ensures Reduced(state, history, DragMove(n, x, y)) == (Current(state), history)
  {
  }

  /**
   * A move of a dragging tile that is asked to travel nowhere leaves the state as it was, and
   * the history records it again.
   */
  lemma StillMove(state: Option<BoardState>, history: Stacks<BoardState>, n: int, x: int, y: int)
    requires n in Current(state).tileData && Current(state).tileData[n].isDragging
    requires MoveDelta(Current(state).tileData[n], x, X) == 0 && MoveDelta(Current(state).tileData[n], y, Y) == 0
    ensures Reduced(state, Some(history), DragMove(n, x, y)) == (Current(state), Some(Pushed(history, Current(state))))
  {
  }

  /**
   * A move of a dragging tile changes only the tiles its resolution names, each to the
   * coordinates of a record naming it, and records the new state in the history.
   */
  lemma MoveEffect(state: Option<BoardState>, history: Stacks<BoardState>, n: int, x: int, y: int)
    requires n in Current(state).tileData && MovesTile(Current(state), n, x, y) && WellKeyed(Current(state).tileData)
    ensures var p := Moved(Current(state), n, x, y);
      p.tileData == MovedTiles(Current(state).tileData, Resolution(Current(state), n, x, y).value.acc)
      && Reduced(state, Some(history), DragMove(n, x, y)) == (p, Some(Pushed(history, p)))
  {
    var p := Moved(Current(state), n, x, y);
    assert p.tileData[n].isDragging;
    var r := Reduced(state, Some(history), DragMove(n, x, y));
    assert r.0 == p;
    assert r.1 == Some(Pushed(history, p));
  }

  /**
   * On a board at rest (same-sized tiles between the walls, none overlapping), a drag move
   * leaves every tile between the walls, and no tile moves further than the drag asked or
   * against its direction.
   */
  lemma MoveKeepsTilesOnBoard(s: BoardState, n: int, x: int, y: int)
    requires n in s.tileData && BoardAtRest(s.tileData, Dimensions(s)) && MovesTile(s, n, x, y)
    ensures var m := s.tileData;
      var info := DragMoveInfo(n, MoveDelta(m[n], x, X), MoveDelta(m[n], y, Y));
      var moved := Moved(s, n, x, y).tileData;
      moved.Keys == m.Keys
      && forall k :: k in moved ==>
        InsideWalls(moved[k], Num(s.tileSize), Wall(Dimensions(s), X), X)
        && InsideWalls(moved[k], Num(s.tileSize), Wall(Dimensions(s), Y), Y)
        && Between(moved[k].x, m[k].x, info.xDifference) && Between(moved[k].y, m[k].y, info.yDifference)
  {
    var m := s.tileData;
    var dims := Dimensions(s);
    var info := DragMoveInfo(n, MoveDelta(m[n], x, X), MoveDelta(m[n], y, Y));
    var r := DragResolution(info, m, dims);
    DragKeepsTilesOnBoard(info, m, dims);
    var moved := MovedTiles(m, r.value.acc);
    forall k | k in moved
      ensures InsideWalls(moved[k], Num(s.tileSize), Wall(dims, X), X)
        && InsideWalls(moved[k], Num(s.tileSize), Wall(dims, Y), Y)
        && Between(moved[k].x, m[k].x, info.xDifference) && Between(moved[k].y, m[k].y, info.yDifference)
    {
      if moved[k] != m[k] {
        var rec :| rec in r.value.acc && rec.number == k && moved[k] == Relocated(m[k], rec);
        assert MovesWithin(rec, m, info, dims);
      }
    }
  }

  /** Every move of a dragging tile records the state it produces in the history. */
  lemma DraggingMovePushes(state: Option<BoardState>, history: Stacks<BoardState>, n: int, x: int, y: int)
    requires n in Current(state).tileData && Current(state).tileData[n].isDragging
    requires MovesTile(Current(state), n, x, y) ==> WellKeyed(Current(state).tileData)
    ensures var (moved, h) := Reduced(state, Some(history), DragMove(n, x, y));
      h == Some(Pushed(history, moved))
  {
    if MovesTile(Current(state), n, x, y) {
      MoveEffect(state, history, n, x, y);
    } else {
      StillMove(state, history, n, x, y);
    }
  }

  /**
   * Right after a state is recorded, undo returns the state recorded before it, and redo then
   * returns the recorded state and leaves the stacks as they were after recording it.
   */
  lemma UndoRedoAfterPush(current: BoardState, history: Stacks<BoardState>)
    requires |history.undo| > 0
    ensures var (undone, h2) := Reduced(Some(current), Some(Pushed(history, current)), Undo);
      var (redone, h3) := Reduced(Some(undone), h2, Redo);
      undone == history.undo[|history.undo| - 1] && redone == current && h3 == Some(Pushed(history, current))
  {
    var pushed := Pushed(history, current);
    UndoThenRedo(pushed);
    var (t, r) := Undone(pushed);
    assert r == Some(history.undo[|history.undo| - 1]);
    assert Reduced(Some(current), Some(pushed), Undo) == (r.value, Some(t));
    assert Reduced(Some(r.value), Some(t), Redo) == (current, Some(pushed));
  }

  /**
   * Undo after a move of a dragging tile returns the state on top of the undo stack before the
   * move. DRAG_START pushes nothing, so after a drag's first move that is the state from before
   * the drag began, not the one right before the move. Redo then returns the state the move
   * produced, the stacks ending as they were after the move.
   */
  lemma UndoRedoAfterMove(state: Option<BoardState>, history: Stacks<BoardState>, n: int, x: int, y: int)
    requires n in Current(state).tileData && Current(state).tileData[n].isDragging
    requires MovesTile(Current(state), n, x, y) ==> WellKeyed(Current(state).tileData)
    requires |history.undo| > 0
    ensures var (moved, h1) := Reduced(state, Some(history), DragMove(n, x, y));
      var (undone, h2) := Reduced(Some(moved), h1, Undo);
      var (redone, h3) := Reduced(Some(undone), h2, Redo);
      undone == history.undo[|history.undo| - 1] && redone == moved && h3 == h1
  {
    DraggingMovePushes(state, history, n, x, y);
    UndoRedoAfterPush(Reduced(state, Some(history), DragMove(n, x, y)).0, history);
  }

  /** The DRAG_MOVE case of `produce` (lines 86-128). */
  method ProduceMove(s: BoardState, n: int, x: int, y: int) returns (newState: BoardState)
    requires n in s.tileData && (MovesTile(s, n, x, y) ==> WellKeyed(s.tileData))
    ensures newState == Moved(s, n, x, y)
  {
    newState := s;
    var tileDataForNumber := s.tileData[n];
    if tileDataForNumber.isDragging {
      var xDifference := MoveDelta(tileDataForNumber, x, X);
      var yDifference := MoveDelta(tileDataForNumber, y, Y);
      if !(xDifference == 0 && yDifference == 0) {
        var rectanglesWhichNeedToBeMoved := GetWhichRectanglesNeedToMoveAndHowFar(
          DragMoveInfo(n, xDifference, yDifference), s.tileData, Dimensions(s));
        var tileMapData := ApplyMoves(s.tileData, rectanglesWhichNeedToBeMoved.value.acc);
        newState := s.(tileData := tileMapData);
      }
    }
  }

  /**
   * The reducer together with the module-level `applicationHistory` it keeps: `null` until the
   * first POPULATE creates it.
   */
  class BoardStateStore {
    var applicationHistory: ApplicationHistory?<BoardState>

    /** The history's stacks, if there is a history. */
    function HistoryState(): Option<Stacks<BoardState>>
      reads this, applicationHistory
    {
      if applicationHistory == null then None else Some(applicationHistory.State())
    }

    /** Before the module is used there is no history. */
    constructor()
      ensures HistoryState() == None
    {
      applicationHistory := null;
    }

    /** `boardStateReducer` (lines 41-161): returns the new state and updates the history. */
    method BoardStateReducer(state: Option<BoardState>, action: Action) returns (newState: BoardState)
      requires Accepts(state, HistoryState(), action)
      modifies this, applicationHistory
      ensures (newState, HistoryState()) == Reduced(state, old(HistoryState()), action)
    {
      var s := if state.Some? then state.value else GetDefaultState();
      match action {
        case PopulateBoardStateData(boardModel, tileSize, _, _) =>
          var tileData := CreateTileState(boardModel, tileSize);
          newState := BoardState(tileData, Some(tileSize), Some(|boardModel[0]|), Some(|boardModel|));
          var history := new ApplicationHistory<BoardState>();
          history.PushState(newState);
          applicationHistory := history;
        case DragStart(n, eventDragStartX, eventDragStartY) =>
          var tileDataForNumber := s.tileData[n];
          tileDataForNumber := tileDataForNumber.(isDragging := true);
          tileDataForNumber := tileDataForNumber.(rectangleStartingDragX := Some(tileDataForNumber.x),
                                                  rectangleStartingDragY := Some(tileDataForNumber.y));
          tileDataForNumber := tileDataForNumber.(eventDragStartX := Some(eventDragStartX),
                                                  eventDragStartY := Some(eventDragStartY));
          newState := s.(tileData := s.tileData[n := tileDataForNumber]);
        case DragEnd(n) =>
          var tileDataForNumber := s.tileData[n];
          tileDataForNumber := tileDataForNumber.(isDragging := false);
          tileDataForNumber := tileDataForNumber.(rectangleStartingDragX := None, rectangleStartingDragY := None);
          tileDataForNumber := tileDataForNumber.(eventDragStartX := None, eventDragStartY := None);
          newState := s.(tileData := s.tileData[n := tileDataForNumber]);
        case DragMove(n, x, y) =>
          newState := ProduceMove(s, n, x, y);
          if newState.tileData[n].isDragging {
            applicationHistory.PushState(newState);
          }
        case Undo =>
          var previousState := applicationHistory.Undo();
          newState := if previousState.Some? then previousState.value else s;
        case Redo =>
          var nextState := applicationHistory.Redo();
          newState := if nextState.Some? then nextState.value else s;
      }
    }
  }
}
