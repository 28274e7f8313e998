/** Switching between the realistic and the schematic view (display/view_mode.rs). */
module ViewModes {
  import opened Wrappers
  import opened BevyState

  datatype ViewMode = Realistic | Schematic

  /** The scan code of the key that switches the view (line 13). */
  const TOGGLE_KEY: nat := 16

  /** The `match` of lines 14-17: the other view. */
  function Other(mode: ViewMode): (r: ViewMode)
    ensures r != mode
  {
    match mode
    case Realistic => Schematic
    case Schematic => Realistic
  }

  /** Switching twice gives back the view switched from. */
  lemma OtherTwice(mode: ViewMode)
    ensures Other(Other(mode)) == mode
  {
  }

  /**
   * `toggle_mode` (lines 12-20): when scan code 16 was just pressed, the other
   * view is scheduled; otherwise nothing changes. The `unwrap` never fails.
   */
  method ToggleMode(justPressed: set<nat>, state: State<ViewMode>)
    modifies state`scheduled
    ensures TOGGLE_KEY in justPressed ==> state.scheduled == Some(Other(state.current))
    ensures TOGGLE_KEY !in justPressed ==> state.scheduled == old(state.scheduled)
  {
    if TOGGLE_KEY in justPressed {
      var r := state.OverwriteSet(Other(state.current));
      assert r == Ok;
    }
  }

  /** The view after a frame whose just-pressed keys are `justPressed`. */
  function AfterFrame(mode: ViewMode, justPressed: set<nat>): (r: ViewMode)
    ensures TOGGLE_KEY in justPressed ==> r != mode
    ensures TOGGLE_KEY !in justPressed ==> r == mode
  {
    if TOGGLE_KEY in justPressed then Other(mode) else mode
  }

  /** Two frames with the key pressed give back the original view. */
  lemma TwoTogglesRestore(mode: ViewMode, first: set<nat>, second: set<nat>)
    requires TOGGLE_KEY in first && TOGGLE_KEY in second
    ensures AfterFrame(AfterFrame(mode, first), second) == mode
  {
    OtherTwice(mode);
  }

  /** One frame: the toggle system schedules, then the state driver applies the change. */
  method Frame(justPressed: set<nat>, state: State<ViewMode>)
    requires state.scheduled == None
    modifies state
    ensures state.current == AfterFrame(old(state.current), justPressed) && state.scheduled == None
  {
    ToggleMode(justPressed, state);
    state.ApplyScheduled();
  }
}
