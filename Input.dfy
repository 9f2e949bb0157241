/**
 * `Input`: the mouse position and the button and key state maps that the
 * listeners write, with the queries games use. A code never written reads
 * as `undefined`, which the queries treat as "not down".
 */
module Input {
  import opened Vectors

  /** A state map answers "down" only for a code stored as `true`. */
  predicate Down(states: map<int, bool>, code: int)
  {
    code in states && states[code]
  }

  /** A code that was never stored is not down. */
  lemma NeverStoredIsUp(states: map<int, bool>, code: int)
    requires code !in states
    ensures !Down(states, code)
  {
  }

  /** After storing a state for a code, the query reports that state and every other code keeps its answer. */
  lemma StoredStateIsReported(states: map<int, bool>, code: int, down: bool, other: int)
    ensures Down(states[code := down], code) == down
    ensures other != code ==> Down(states[code := down], other) == Down(states, other)
  {
  }

  class InputState {
    var mousePosition: Vector2
    var mouseButtonsStates: map<int, bool>
    var keyboardButtonsStates: map<int, bool>

    constructor ()
      ensures mousePosition == Zero && mouseButtonsStates == map[] && keyboardButtonsStates == map[]
    {
      mousePosition := Vector2(0.0, 0.0);
      mouseButtonsStates := map[];
      keyboardButtonsStates := map[];
    }

    function GetMousePosition(): (p: Vector2)
      reads this
      ensures p == mousePosition
    {
      mousePosition
    }

    function GetMouseButtonDown(code: int): (b: bool)
      reads this
      ensures b <==> Down(mouseButtonsStates, code)
    {
      if code in mouseButtonsStates && mouseButtonsStates[code] then true else false
    }

    function GetKeyboardButtonDown(code: int): (b: bool)
      reads this
      ensures b <==> Down(keyboardButtonsStates, code)
    {
      if code in keyboardButtonsStates && keyboardButtonsStates[code] then true else false
    }

    /** What a mousedown (`true`) or mouseup (`false`) handler stores. */
    method SetMouseButton(code: int, down: bool)
      modifies this
      ensures mouseButtonsStates == old(mouseButtonsStates)[code := down]
      ensures keyboardButtonsStates == old(keyboardButtonsStates) && mousePosition == old(mousePosition)
      ensures GetMouseButtonDown(code) == down
    {
      mouseButtonsStates := mouseButtonsStates[code := down];
    }

    /** What a keydown (`true`) or keyup (`false`) handler stores. */
    method SetKeyboardButton(code: int, down: bool)
      modifies this
      ensures keyboardButtonsStates == old(keyboardButtonsStates)[code := down]
      ensures mouseButtonsStates == old(mouseButtonsStates) && mousePosition == old(mousePosition)
      ensures GetKeyboardButtonDown(code) == down
    {
      keyboardButtonsStates := keyboardButtonsStates[code := down];
    }
  }
}
