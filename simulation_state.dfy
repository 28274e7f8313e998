/**
 * Pausing and resuming the simulation (simulation/mod.rs): a toggle event
 * flips `SpaceSimulationState`, and the stepping system only runs while the
 * state is `Running`.
 */
module SimulationState {
  import opened Wrappers
  import opened Vectors
  import opened BevyState
  import opened NBody

  datatype SpaceSimulationState = Running | Stopped

  /** The state the plugin starts in (line 46). */
  const INITIAL := Stopped

  /** The `match` of lines 30-33: the other state. */
  function Flip(s: SpaceSimulationState): (r: SpaceSimulationState)
    ensures r != s
  {
    match s
    case Stopped => Running
    case Running => Stopped
  }

  /** Flipping twice gives back the state flipped. */
  lemma FlipTwice(s: SpaceSimulationState)
    ensures Flip(Flip(s)) == s
  {
  }

  /**
   * `toggle_simulation_state` (lines 23-38) over `events` toggle events: every
   * event reads the same current state, so one event or several schedule the
   * same single flip, and `unwrap` never fails.
   */
  method ToggleSimulationState(events: nat, state: State<SpaceSimulationState>)
    modifies state`scheduled
    ensures events == 0 ==> state.scheduled == old(state.scheduled)
    ensures events > 0 ==> state.scheduled == Some(Flip(state.current))
  {
    for k := 0 to events
      invariant k == 0 ==> state.scheduled == old(state.scheduled)
      invariant k > 0 ==> state.scheduled == Some(Flip(state.current))
    {
      var before := state.current;
      var next := Flip(before);
      var r := state.OverwriteSet(next);
      assert r == Ok;
    }
  }

  /** The state after a frame in which `events` toggle events arrived. */
  function AfterFrame(s: SpaceSimulationState, events: nat): (r: SpaceSimulationState) {
    if events == 0 then s else Flip(s)
  }

  /** The state after a run of frames; `perFrame[k]` is the number of toggle events of frame `k`. */
  function AfterFrames(s: SpaceSimulationState, perFrame: seq<nat>): SpaceSimulationState
    decreases |perFrame|
  {
    if perFrame == [] then s
    else AfterFrame(AfterFrames(s, perFrame[..|perFrame| - 1]), perFrame[|perFrame| - 1])
  }

  /** The number of frames that had at least one toggle event. */
  function ActiveFrames(perFrame: seq<nat>): (c: nat)
    ensures c <= |perFrame|
    decreases |perFrame|
  {
    if perFrame == [] then 0
    else ActiveFrames(perFrame[..|perFrame| - 1]) + (if perFrame[|perFrame| - 1] > 0 then 1 else 0)
  }

  /** The state has changed exactly when an odd number of frames had toggle events. */
  lemma {:induction false} AfterFramesParity(s: SpaceSimulationState, perFrame: seq<nat>)
    ensures AfterFrames(s, perFrame) == (if ActiveFrames(perFrame) % 2 == 0 then s else Flip(s))
    decreases |perFrame|
  {
    if perFrame != [] {
      AfterFramesParity(s, perFrame[..|perFrame| - 1]);
    }
  }

  /** With one toggle event per frame, the state after `n` frames has changed iff `n` is odd. */
  lemma {:induction false} OneTogglePerFrame(s: SpaceSimulationState, perFrame: seq<nat>)
    requires forall k :: 0 <= k < |perFrame| ==> perFrame[k] == 1
    ensures AfterFrames(s, perFrame) != s <==> |perFrame| % 2 == 1
    decreases |perFrame|
  {
    AfterFramesParity(s, perFrame);
    ActiveFramesAll(perFrame);
  }

  lemma {:induction false} ActiveFramesAll(perFrame: seq<nat>)
    requires forall k :: 0 <= k < |perFrame| ==> perFrame[k] > 0
    ensures ActiveFrames(perFrame) == |perFrame|
    decreases |perFrame|
  {
    if perFrame != [] {
      ActiveFramesAll(perFrame[..|perFrame| - 1]);
    }
  }

  /**
   * One frame of the plugin (lines 44-54). The stepping system is gated on
   * `Running`, and the toggle system schedules its flip. In the same stage
   * the state driver applies a scheduled change and then has the stage run
   * again, so a system gated on the new state runs once more in that frame.
   * Hence the simulation steps in a frame that starts `Running`, and also in
   * a frame that starts `Stopped` and receives a toggle event; in the latter
   * it steps after the transition. `deltaSeconds` is the frame time times
   * `speed`, as `simulation_take_step` passes it.
   */
  method Frame(ops: FloatOps, sim: SpaceSimulation, state: State<SpaceSimulationState>,
               percision: nat, deltaSeconds: real, toggles: nat) returns (stepped: bool)
    requires sim.bodies.Valid() && state.scheduled == None
    modifies sim.bodies, state
    ensures stepped <==> old(state.current) == Running || toggles > 0
    ensures state.current == AfterFrame(old(state.current), toggles) && state.scheduled == None
    ensures sim.bodies.Valid() && sim.bodies.masses == old(sim.bodies.masses)
    ensures sim.bodies.names == old(sim.bodies.names) && sim.bodies.radiuses == old(sim.bodies.radiuses) &&
            sim.bodies.rotations == old(sim.bodies.rotations)
    ensures !stepped ==> sim.bodies.positions == old(sim.bodies.positions) && sim.bodies.velocities == old(sim.bodies.velocities)
    ensures stepped ==>
      Kinematics(sim.bodies.positions, sim.bodies.velocities) ==
      Passes(ops, sim.g, sim.bodies.masses, ops.divide(deltaSeconds, percision as real), percision,
             Kinematics(old(sim.bodies.positions), old(sim.bodies.velocities)))
  {
    // First run of the stage: the gate sees the state the frame started in.
    stepped := state.current == Running;
    if stepped {
      sim.TakeStepSmooth(ops, percision, deltaSeconds);
    }
    ToggleSimulationState(toggles, state);
    // The driver applies the change; the stage runs again under the new state.
    state.ApplyScheduled();
    if !stepped && state.current == Running {
      stepped := true;
      sim.TakeStepSmooth(ops, percision, deltaSeconds);
    }
  }
}
