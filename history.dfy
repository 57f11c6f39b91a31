/**
 * The undo/redo history of the board state: an undo stack whose top is the current state and a
 * redo stack of states that were undone. The stacks as a value (`Stacks`) and the effect of each
 * operation on them are the specification the `ApplicationHistory` class is proved against.
 */
module History {
  import opened Wrappers

  /** `_undoStack` and `_redoStack`; the end of each sequence is the top of its stack. */
  datatype Stacks<T> = Stacks(undo: seq<T>, redo: seq<T>)

  /** `pushState`: the redo stack is dropped and the new state goes on top of the undo stack. */
  function Pushed<T>(s: Stacks<T>, newState: T): Stacks<T>
  {
    Stacks(s.undo + [newState], [])
  }

  /**
   * `undo`: nothing to return on an empty history; a lone state is returned and kept; otherwise
   * the top moves to the redo stack and the state beneath it is returned.
   */
  function Undone<T>(s: Stacks<T>): (Stacks<T>, Option<T>)
  {
    var n := |s.undo|;
    if n == 0 then (s, None)
    else if n == 1 then (s, Some(s.undo[0]))
    else (Stacks(s.undo[..n - 1], s.redo + [s.undo[n - 1]]), Some(s.undo[n - 2]))
  }

  /** `redo`: the top of the redo stack, if any, moves back onto the undo stack and is returned. */
  function Redone<T>(s: Stacks<T>): (Stacks<T>, Option<T>)
  {
    var n := |s.redo|;
    if n == 0 then (s, None)
    else (Stacks(s.undo + [s.redo[n - 1]], s.redo[..n - 1]), Some(s.redo[n - 1]))
  }

  /** Undo on an empty history returns nothing and changes nothing. */
  lemma UndoEmpty<T>(s: Stacks<T>)
    requires |s.undo| == 0
    ensures Undone(s) == (s, None)
  {
  }

  /** Undo with a single state returns that state and leaves both stacks as they were. */
  lemma UndoSingle<T>(s: Stacks<T>)
    requires |s.undo| == 1
    ensures Undone(s).0 == s && Undone(s).1 == Some(s.undo[0])
  {
  }

  /**
   * Undo never empties a non-empty undo stack, keeps every state (none is lost or made up), and
   * whenever it returns a state, that state is the new top of the undo stack.
   */
  lemma UndoKeepsCurrent<T>(s: Stacks<T>)
    ensures var (t, r) := Undone(s);
      (|s.undo| > 0 ==> |t.undo| > 0)
      && multiset(t.undo) + multiset(t.redo) == multiset(s.undo) + multiset(s.redo)
      && (r.Some? <==> |s.undo| > 0)
      && (r.Some? ==> r.value == t.undo[|t.undo| - 1])
  {
    var n := |s.undo|;
    if n > 1 {
      assert s.undo == s.undo[..n - 1] + [s.undo[n - 1]];
    }
  }

  /** Redo on an empty redo stack returns nothing and changes nothing. */
  lemma RedoEmpty<T>(s: Stacks<T>)
    requires |s.redo| == 0
    ensures Redone(s) == (s, None)
  {
  }

  /** Undo followed by redo restores both stacks, and redo returns the state undo moved away. */
  lemma UndoThenRedo<T>(s: Stacks<T>)
    requires |s.undo| > 1
    ensures Redone(Undone(s).0) == (s, Some(s.undo[|s.undo| - 1]))
  {
    var n := |s.undo|;
    assert s.undo[..n - 1] + [s.undo[n - 1]] == s.undo;
    assert (s.redo + [s.undo[n - 1]])[..|s.redo|] == s.redo;
  }

  /**
   * Redo followed by undo restores both stacks, and undo returns the state that was current
   * before the redo.
   */
  lemma RedoThenUndo<T>(s: Stacks<T>)
    requires |s.undo| > 0 && |s.redo| > 0
    ensures Undone(Redone(s).0) == (s, Some(s.undo[|s.undo| - 1]))
  {
    var m := |s.redo|;
    assert (s.undo + [s.redo[m - 1]])[..|s.undo|] == s.undo;
    assert s.redo[..m - 1] + [s.redo[m - 1]] == s.redo;
  }

  /** After a push, redo has nothing to return: pushing discards every undone state. */
  lemma PushThenRedo<T>(s: Stacks<T>, newState: T)
    ensures Redone(Pushed(s, newState)).1 == None
    ensures Undone(Pushed(s, newState)).1 == (if |s.undo| == 0 then Some(newState) else Some(s.undo[|s.undo| - 1]))
  {
  }

  /**
   * Undo and redo only move states between the stacks: every state they leave on either stack,
   * and the state they return, was already on one of the stacks.
   */
  lemma UndoRedoKeepStates<T>(s: Stacks<T>)
    ensures var (t, r) := Undone(s);
      (forall x :: x in t.undo || x in t.redo ==> x in s.undo || x in s.redo)
      && (r.Some? ==> r.value in s.undo)
    ensures var (t, r) := Redone(s);
      (forall x :: x in t.undo || x in t.redo ==> x in s.undo || x in s.redo)
      && (r.Some? ==> r.value in s.redo)
  {
    UndoKeepsCurrent(s);
    var (t, r) := Undone(s);
    forall x | x in t.undo || x in t.redo ensures x in s.undo || x in s.redo {
      assert x in multiset(t.undo) + multiset(t.redo);
    }
    var m := |s.redo|;
    if m > 0 {
      assert s.redo[..m - 1] + [s.redo[m - 1]] == s.redo;
    }
  }

  /** `ApplicationHistory`: the two stacks as fields, changed in place by every operation. */
  class ApplicationHistory<T> {
    var undoStack: seq<T>
    var redoStack: seq<T>

    /** The stacks as a value. */
    function State(): Stacks<T>
      reads this
    {
      Stacks(undoStack, redoStack)
    }

    /** A new history has both stacks empty. */
    constructor()
      ensures State() == Stacks([], [])
    {
      undoStack := [];
      redoStack := [];
    }

    /** `populateWithState`: the given states become the undo stack; the redo stack is untouched. */
    method PopulateWithState(initialState: seq<T>)
      modifies this
      ensures State() == Stacks(initialState, old(redoStack))
    {
      undoStack := initialState;
    }

    /** `getStateStack`: the undo stack. */
    method GetStateStack() returns (stack: seq<T>)
      ensures stack == undoStack
    {
      stack := undoStack;
    }

    /** `pushState`. */
    method PushState(newState: T)
      modifies this
      ensures State() == Pushed(old(State()), newState)
    {
      redoStack := [];
      undoStack := undoStack + [newState];
    }

    /** `undo`; `None` is `undefined`. */
    method Undo() returns (result: Option<T>)
      modifies this
      ensures (State(), result) == Undone(old(State()))
    {
      if |undoStack| == 0 {
        result := None;
      } else if |undoStack| == 1 {
        result := Some(undoStack[0]);
      } else {
        var lastState := undoStack[|undoStack| - 1];
        undoStack := undoStack[..|undoStack| - 1];
        redoStack := redoStack + [lastState];
        result := Some(undoStack[|undoStack| - 1]);
      }
    }

    /** `redo`; `None` is `undefined`. */
    method Redo() returns (result: Option<T>)
      modifies this
      ensures (State(), result) == Redone(old(State()))
    {
      if |redoStack| == 0 {
        result := None;
      } else {
        var state := redoStack[|redoStack| - 1];
        redoStack := redoStack[..|redoStack| - 1];
        undoStack := undoStack + [state];
        result := Some(state);
      }
    }
  }
}
