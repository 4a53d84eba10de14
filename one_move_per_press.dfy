/** One move per press (dist/one-move-per-press.js): while the playback
    flag `oneMovePerPress` is on, a held key or pointer allows one move;
    further moves are blocked until every key and the pointer are released.
    The pointer is tracked as the pseudo-key "pointer" in the same set as
    the keyboard keys. */
module OneMovePerPress {

  const POINTER_KEY: string := "pointer"

  /** The plugin's state together with the playback flag it watches. */
  datatype PressState = PressState(
    keysPressed: set<string>,
    blockMovement: bool,
    /** The flag's value at the last move (`oneMovePerPressIsOn`). */
    isOn: bool,
    /** `PLAYBACK.oneMovePerPress`, set by the game. */
    flag: bool)

  /** The block is only ever up while something is held. */
  predicate Consistent(s: PressState)
  {
    s.blockMovement ==> s.keysPressed != {}
  }

  /** State right after the game starts, with the configured default. */
  function Started(startsOn: bool): (s: PressState)
    ensures Consistent(s) && s.isOn == s.flag == startsOn
  {
    PressState({}, false, startsOn, startsOn)
  }

  /** The keydown (and pointerdown) listener. */
  function Press(s: PressState, key: string): PressState
  {
    if !s.flag then s else s.(keysPressed := s.keysPressed + {key})
  }

  /** The keyup (and pointerup) listener. */
  function Release(s: PressState, key: string): PressState
  {
    if !s.flag then s
    else
      var keys := s.keysPressed - {key};
      s.(keysPressed := keys, blockMovement := if |keys| == 0 then false else s.blockMovement)
  }

  /** The outcome of a move request. */
  datatype MoveOutcome = MoveOutcome(state: PressState, moved: bool)

  /** The spliced `move`: notice a flag change, then let the original move
      run unless blocked, and raise the block while something is held. */
  function MoveStep(s: PressState): MoveOutcome
  {
    var s1 := if s.isOn != s.flag then
                (if s.flag then s.(isOn := s.flag, keysPressed := {}, blockMovement := false) else s.(isOn := s.flag))
              else s;
    if !s1.flag then MoveOutcome(s1, true)
    else MoveOutcome(s1.(blockMovement := s1.blockMovement || |s1.keysPressed| > 0), !s1.blockMovement)
  }

  /** Every handler keeps the block consistent with the held keys. */
  lemma StepsKeepConsistent(s: PressState, key: string)
    requires Consistent(s)
    ensures Consistent(Press(s, key)) && Consistent(Release(s, key)) && Consistent(MoveStep(s).state)
  {
  }

  /** With the flag off, moves always go through and the listeners change
      nothing. */
  lemma OffPassesThrough(s: PressState, key: string)
    requires !s.flag
    ensures MoveStep(s).moved
    ensures MoveStep(s).state == s.(isOn := false)
    ensures Press(s, key) == s && Release(s, key) == s
  {
  }

  /** With the flag on, a move goes through exactly when the block is down
      (after any re-enable reset), and leaves the block up exactly when
      something is held or it was already up. */
  lemma OnMoveRule(s: PressState)
    requires s.flag && s.isOn
    ensures MoveStep(s).moved == !s.blockMovement
    ensures MoveStep(s).state.blockMovement == (s.blockMovement || s.keysPressed != {})
    ensures MoveStep(s).state.keysPressed == s.keysPressed
  {
  }

  /** Holding a key allows one move: the second move made before any
      release is blocked. */
  lemma OneMovePerHeldKey(s: PressState, key: string)
    requires s.flag && s.isOn && !s.blockMovement && s.keysPressed == {}
    ensures var held := Press(s, key);
            var first := MoveStep(held);
            first.moved && !MoveStep(first.state).moved
  {
    var held := Press(s, key);
    assert key in held.keysPressed;
    OnMoveRule(held);
    OnMoveRule(MoveStep(held).state);
  }

  /** Releasing the last held key lifts the block, so the next move goes
      through; releasing one of two keys does not. */
  lemma ReleaseLastKeyUnblocks(s: PressState, key: string, other: string)
    requires s.flag && s.isOn && s.blockMovement
    ensures s.keysPressed == {key} ==> MoveStep(Release(s, key)).moved
    ensures s.keysPressed == {key, other} && key != other ==> !MoveStep(Release(s, key)).moved
  {
    if s.keysPressed == {key} {
      assert Release(s, key).keysPressed == {};
      OnMoveRule(Release(s, key));
    }
    if s.keysPressed == {key, other} && key != other {
      assert other in Release(s, key).keysPressed;
      OnMoveRule(Release(s, key));
    }
  }

  /** A move that finds the flag newly switched on clears the held keys and
      the block first, so it goes through; after any move `isOn` tracks the
      flag. */
  lemma ReenableResets(s: PressState)
    ensures MoveStep(s).state.isOn == s.flag
    ensures !s.isOn && s.flag ==> MoveStep(s).moved && MoveStep(s).state.keysPressed == {} && !MoveStep(s).state.blockMovement
  {
  }

  /** The plugin's module-level state, with the playback flag. */
  class PressTracker {
    var keysPressed: set<string>
    var blockMovement: bool
    var isOn: bool
    var flag: bool

    function State(): PressState
      reads this
    {
      PressState(keysPressed, blockMovement, isOn, flag)
    }

    /** The state once the game has started, with `plugin-starts-on`. */
    constructor(startsOn: bool)
      ensures State() == Started(startsOn)
    {
      keysPressed := {};
      blockMovement := false;
      isOn := startsOn;
      flag := startsOn;
    }

    /** The game switching `PLAYBACK.oneMovePerPress`. */
    method SetFlag(value: bool)
      modifies this
      ensures State() == old(State()).(flag := value)
    {
      flag := value;
    }

    method KeyDown(key: string)
      modifies this
      ensures State() == Press(old(State()), key)
    {
      if !flag {
        return;
      }
      keysPressed := keysPressed + {key};
    }

    method KeyUp(key: string)
      modifies this
      ensures State() == Release(old(State()), key)
    {
      if !flag {
        return;
      }
      keysPressed := keysPressed - {key};
      if |keysPressed| == 0 {
        blockMovement := false;
      }
    }

    method PointerDown()
      modifies this
      ensures State() == Press(old(State()), POINTER_KEY)
    {
      KeyDown(POINTER_KEY);
    }

    method PointerUp()
      modifies this
      ensures State() == Release(old(State()), POINTER_KEY)
    {
      KeyUp(POINTER_KEY);
    }

    /** Returns whether the original `move` was called. */
    method Move() returns (moved: bool)
      modifies this
      ensures State() == MoveStep(old(State())).state
      ensures moved == MoveStep(old(State())).moved
    {
      if isOn != flag {
        isOn := flag;
        if isOn {
          keysPressed := {};
          blockMovement := false;
        }
      }
      if !flag {
        moved := true;
      } else {
        moved := !blockMovement;
        if |keysPressed| > 0 {
          blockMovement := true;
        }
      }
    }
  }
}
