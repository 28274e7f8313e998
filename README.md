# space: the N-body core, modelled in Dafny

This project models the core of `space`, an interactive orbital-mechanics
visualizer built on the Bevy engine. That core has five parts:

- The **body store** `SpaceBodies` (module `BodyStore`). It keeps five
  parallel arrays and maps each body's name to its slot.
- The **multi-pass integrator** of the newer `SpaceSimulation` (module `NBody`).
  Its packed triangular force table is indexed by `from_matrix_to_vector`.
- The **adaptive integrator** of the older `SpaceSimulation` (module
  `AdaptiveNBody`). It kicks pairs under a per-pair precision table. On a
  precision issue it retries with half the step and twice the step count,
  after rolling back to a snapshot.
- The **selection state machine** and the material recolouring systems
  (module `Selection`).
- The two **two-state toggles**: pause/resume of the simulation (module
  `SimulationState`) and the view mode (module `ViewModes`). Both sit over
  Bevy's `State<T>` resource (module `BevyState`).

The two integrators come from two variants of the program that are never
compiled together, so each has its own module and its own `SpaceSimulation`
class.

Modelling conventions:

- Vectors are `Vec3` over `real`, with exact addition, subtraction, scaling and
  dot product. `length`, `normalize` and f64 division are uninterpreted
  functions, passed in as a `FloatOps` value. The only fact assumed about them
  is that a length is never negative (`Vectors.Sound`).
- The rayon parallel loops are modelled by their sequential meaning, one loop
  index at a time. The `UnsafeCell` force buffer is a Dafny `array`.
- Indices and keys are unbounded naturals. Where the source's 64-bit `usize`
  matters, the model writes it out: `i << 32` drops the bits of `i` above
  bit 31 (`AdaptiveNBody.ShiftLeft32`).
- `State<T>` follows Bevy 0.9. `overwrite_set` refuses the state that is
  already current and otherwise only schedules the change, so `current()`
  keeps returning the old state for the rest of that system. The state driver
  applies the scheduled change within the same frame and then runs the stage
  again, so a system gated on the new state (`on_update(Running)`) runs once
  more in that frame.
- Each loop of `take_step` and `take_step_smooth` is its own method (`Drift`,
  `KickAll`, `RunAttempt`, `Settle`, `FillForces`, `UpdateVelocities`,
  `UpdatePositions`, `RunPasses`, and so on). They run the source's statements
  in the source's order.
- The simulation's pause state starts as `Stopped` (`SimulationState.INITIAL`).
  The selection markers start as the sentinel entity whose index is
  `u32::MAX`.

Behaviour of the code that the model states as it is:

- `insert` with a name that is already present does not fail. It overwrites
  the map entry, and the earlier body stays in the arrays with no name left
  pointing at it (`BodyStore.InsertDuplicateOrphans`).
- `remove` repoints whichever name holds the largest slot. That is correct
  unless the removed body held the last slot
  (`BodyStore.RemoveMiddleAsWrittenIsCorrect`); removing the last of two or
  more bodies breaks the name map (see Findings).
- All toggle events of one frame read the same current state, so any number
  of them, one or more, schedules a single flip. "After n toggles the state
  has changed iff n is odd" therefore holds per frame: the state has changed
  iff an odd number of frames had at least one toggle event
  (`SimulationState.AfterFramesParity`). It holds per event only when every
  frame carries one event (`SimulationState.OneTogglePerFrame`).
- The simulation steps in a frame that starts `Running`, and also in a frame
  that starts `Stopped` and receives a toggle event, because the stage runs
  again after the transition (`SimulationState.Frame`).

## Model

| member | source | states |
|---|---|---|
| Vectors.Advance | src/space/simulation/space_simulation.rs:244-250 | every position moves by exactly its velocity times `dt`, and the number of bodies is kept |
| BodyStore.SwapRemove | src/space/simulation/space_simulation.rs:75-79 | `swap_remove`: the length drops by one, the last element lands in the freed slot, every other slot is unchanged, and the multiset loses exactly the removed element |
| BodyStore.Relocate | src/space/simulation/space_simulation.rs:81-83 | the intended repointing: the same names, and only the entry that held slot `from` now holds `to` |
| BodyStore.MaxExists | src/space/simulation/space_simulation.rs:81 | a non-empty name map has an entry holding the largest slot, so `values_mut().max()` finds one |
| BodyStore.InsertFreshKeepsIndexing | src/space/simulation/space_simulation.rs:63-70 | inserting a new name at slot `n` turns a bijection onto `0..n` into a bijection onto `0..n+1` |
| BodyStore.InsertDuplicateOrphans | src/space/simulation/space_simulation.rs:64 | inserting a name that is already present leaves the earlier body's slot unnamed, and the map is no longer a bijection |
| BodyStore.RemovedValues | src/space/simulation/space_simulation.rs:73 | dropping a name from a bijection onto `0..n` leaves exactly the other slots in use, still injectively |
| BodyStore.RelocateKeepsIndexing | src/space/simulation/space_simulation.rs:72-85 | the intended removal restores a bijection onto `0..n-1`, whichever slot was freed |
| BodyStore.RelocateFollowsSwapRemove | src/space/simulation/space_simulation.rs:72-85 | index stability: after the intended removal every remaining name still reaches its own body in the swap-removed arrays |
| BodyStore.RemoveMiddleAsWrittenIsCorrect | src/space/simulation/space_simulation.rs:81-83 | when the removed body was not the last, repointing the largest-slot entry is exactly the intended repointing and keeps the bijection |
| BodyStore.RemoveLastAsWrittenBreaks | src/space/simulation/space_simulation.rs:81-83 | when the removed body was the last of two or more, some name is sent to the vanished slot `n-1`, slot `n-2` loses its name, and the map is no longer a bijection |
| BodyStore.RemoveLastExample | src/space/simulation/space_simulation.rs:81-83 | with bodies "a" at 0 and "b" at 1, removing "b" sends "a" to slot 1 |
| BodyStore.SpaceBodies.constructor | src/space/simulation/space_simulation.rs:51-59 | the default store is empty and its arrays are parallel |
| BodyStore.SpaceBodies.Len | src/space/simulation/space_simulation.rs:132-134 | the length of `positions`, which every parallel array shares |
| BodyStore.SpaceBodies.GetIndex | src/space/simulation/space_simulation.rs:128-130 | defined only for names in the map (the source panics otherwise); the slot is in range whenever the map is a bijection |
| BodyStore.SpaceBodies.Insert | src/space/simulation/space_simulation.rs:63-70 | the name maps to the old length, each array grows by exactly the body's field, and a fresh name keeps the map a bijection |
| BodyStore.SpaceBodies.Remove | src/space/simulation/space_simulation.rs:72-86 | an absent name gives `None` and changes nothing; a present one gives its slot, swap-removes every array and repoints a largest-slot entry to the freed slot |
| BodyStore.SpaceBodies.RemoveCorrected | src/space/simulation/space_simulation.rs:72-86 | the intended removal: the same arrays, with only the moved body's entry repointed, so a bijection stays a bijection |
| NBody.FromMatrixToVector | src/space/simulation/space_simulation.rs:160-166 | the source's packed upper-triangle slot formula, over unbounded integers; what it guarantees is stated by the lemmas from `RowStartClosedForm` to `PairSlots` |
| NBody.ForcesSize | src/space/simulation/space_simulation.rs:181 | the force buffer length, one slot per unordered pair with the diagonal, `n*(n+1)/2`; `RowStartEnd` and `FromMatrixToVectorBounds` show every slot fits |
| NBody.RowStartClosedForm | src/space/simulation/space_simulation.rs:162 | the row offset `i*size - (i-1)*i/2` counts the slots of rows `0..i` of the packed triangle |
| NBody.SlotIsRowOffset | src/space/simulation/space_simulation.rs:160-166 | the slot of a pair is the start of its smaller index's row plus the distance between the two indices |
| NBody.RowStartMonotone | src/space/simulation/space_simulation.rs:160-166 | each row of the triangle starts after the whole previous row |
| NBody.RowStartEnd | src/space/simulation/space_simulation.rs:181 | the rows of a `size`-body triangle fill exactly `size*(size+1)/2` slots, the force buffer length |
| NBody.SlotInRow | src/space/simulation/space_simulation.rs:160-166 | the slot of `(i, j)` with `i <= j < size` lies inside row `i` |
| NBody.FromMatrixToVectorSymmetric | src/space/simulation/space_simulation.rs:160-166 | `from_matrix_to_vector(i, j) == from_matrix_to_vector(j, i)` |
| NBody.FromMatrixToVectorBounds | src/space/simulation/space_simulation.rs:181-186 | for `i, j < size` the slot is in `0 .. size*(size+1)/2` |
| NBody.FromMatrixToVectorInjective | src/space/simulation/space_simulation.rs:203-207 | two pairs share a slot only if they are the same unordered pair, which is what the unsynchronised writes rely on |
| NBody.PairSlots | src/space/simulation/space_simulation.rs:190-210 | the pairs of `combinations(2)` write pairwise distinct in-range slots, and every pair `i < j` is among them |
| NBody.Pass | src/space/simulation/space_simulation.rs:189-252 | one pass of the `while iteration > 0` loop on positions and velocities; it keeps the number of bodies, and `PassIsSemiImplicitEuler` states what it does to each body |
| NBody.Passes | src/space/simulation/space_simulation.rs:188-253 | `k` passes in a row; it keeps the number of bodies, and `PassesSplit` and `IterateIsPasses` state how passes compose |
| NBody.PassIsSemiImplicitEuler | src/space/simulation/space_simulation.rs:214-250 | one pass gives each body `v + a*dt` and `p + v*dt + a*dt^2`, with `a` taken from the positions before the pass: every velocity is updated before any position moves |
| NBody.IterateIsPasses | src/space/simulation/space_simulation.rs:188-253 | running a pass `k` times is `k` passes |
| NBody.PassesSplit | src/space/simulation/space_simulation.rs:188-253 | `k+1` passes are one pass followed by `k` more |
| NBody.SpaceSimulation.FillForces | src/space/simulation/space_simulation.rs:190-210 | afterwards every pair `i < j` finds its own gravitational force at its packed slot |
| NBody.SpaceSimulation.AccelerationOf | src/space/simulation/space_simulation.rs:219-239 | the acceleration read from the table, looking pairs up in either order, is the sum of the pulls, each using the force stored once for the pair |
| NBody.SpaceSimulation.UpdateVelocities | src/space/simulation/space_simulation.rs:214-242 | every velocity gains its acceleration times `dt`, computed on the unchanged positions |
| NBody.SpaceSimulation.UpdatePositions | src/space/simulation/space_simulation.rs:244-250 | every position moves by its new velocity times `dt` |
| NBody.SpaceSimulation.OnePass | src/space/simulation/space_simulation.rs:189-252 | one iteration of the loop is one semi-implicit Euler pass |
| NBody.SpaceSimulation.RunPasses | src/space/simulation/space_simulation.rs:188-253 | the `while iteration > 0` loop makes exactly `count` passes |
| NBody.SpaceSimulation.TakeStepSmooth | src/space/simulation/space_simulation.rs:159-254 | exactly `percision` passes of `delta_seconds / percision`; masses, names, radiuses and rotations are unchanged |
| Pairs.Combinations2Spec | src/space/simulation.rs:78 | `combinations(2)` lists exactly the pairs `i < j < n`, in strictly increasing lexicographic order |
| AdaptiveNBody.MakePercisionKey | src/space/simulation.rs:28-30 | the bitwise or of `i << 32` and `j` on a 64-bit `usize`; `PercisionKeyIsSum`, `PercisionKeyInjective`, `PercisionKeyOrdered` and `PercisionKeyCollidesBeyond32Bits` state what it guarantees |
| AdaptiveNBody.ShiftLeft32 | src/space/simulation.rs:29 | `i << 32` on a 64-bit `usize` stays below 2^64 |
| AdaptiveNBody.BitOrDisjoint | src/space/simulation.rs:29 | or-ing a number below `2^k` into a multiple of `2^k` adds the two |
| AdaptiveNBody.PercisionKeyIsSum | src/space/simulation.rs:28-30 | for indices below 2^32 the key is `i*2^32 + j` |
| AdaptiveNBody.PercisionKeyInjective | src/space/simulation.rs:28-30 | for indices below 2^32, equal keys mean equal pairs |
| AdaptiveNBody.PercisionKeyOrdered | src/space/simulation.rs:28-30 | the key depends on the order of the pair |
| AdaptiveNBody.PercisionKeyCollidesBeyond32Bits | src/space/simulation.rs:28-30 | from `j = 2^32` on, keys collide: `(0, 2^32)` and `(1, 0)` get the same key |
| AdaptiveNBody.StepPairs | src/space/simulation.rs:78 | `take_step` only visits pairs `i < j < n`, so it only asks for keys with `i < j` |
| AdaptiveNBody.TakeStepSpec | src/space/simulation.rs:69-113 | `take_step` never changes the masses |
| AdaptiveNBody.PairStep | src/space/simulation.rs:79-109 | one pair iteration: the precision check, the two kicks and the table update; it keeps the number of bodies, and `NoEntryNoIssue`, `PairKick`, `PairTableRule` and `PairStepConserves` state its effect |
| AdaptiveNBody.KickPairs | src/space/simulation.rs:78-110 | the pair loop, stopping at the first precision issue; it keeps the number of bodies, and `KickPairsStopsAtFirstIssue` and `KickPairsConserves` state its effect |
| AdaptiveNBody.Attempt | src/space/simulation.rs:44-56 | one try of `step_count` steps of `delta`, stopping at the first precision issue; `AttemptIssueSticks` and `AttemptConserves` state its effect |
| AdaptiveNBody.Smooth | src/space/simulation.rs:43-58 | the retry loop, rolling positions and velocities back to the snapshot but keeping the table; `SmoothSettles`, `SmoothStaysOnSchedule` and `SmoothConserves` state its effect |
| AdaptiveNBody.KickPairsNext | src/space/simulation.rs:78-110 | one more pair either keeps an earlier precision issue or applies that pair's step |
| AdaptiveNBody.KickPairsIssueSticks | src/space/simulation.rs:89-92 | once a prefix of the pairs raised a precision issue, later pairs change nothing |
| AdaptiveNBody.KickPairsStopsAtFirstIssue | src/space/simulation.rs:78-92 | an issue leaves exactly the kicks of the pairs before the offending one applied, all of which succeeded |
| AdaptiveNBody.NoEntryNoIssue | src/space/simulation.rs:83-92 | a pair with no table entry never raises a precision issue, because its threshold is 0 and a distance is never negative |
| AdaptiveNBody.KicksCancel | src/space/simulation.rs:101-102 | in exact arithmetic the two kicks satisfy `m_i*dv_i == -m_j*dv_j` |
| AdaptiveNBody.PairKick | src/space/simulation.rs:97-102 | a successful pair step changes only the velocities of `i` and `j`, and their mass-weighted changes cancel |
| AdaptiveNBody.PairTableRule | src/space/simulation.rs:104-109 | the table changes at most at the key of `(i, j)`, only after a kick of two velocities whose dot product was negative, and then records the sum of the two new speeds |
| AdaptiveNBody.PairStepConserves | src/space/simulation.rs:79-110 | a pair step keeps the total momentum and never drops a table key |
| AdaptiveNBody.KickPairsConserves | src/space/simulation.rs:78-110 | the whole pair loop keeps the total momentum and never drops a table key |
| AdaptiveNBody.TakeStepConserves | src/space/simulation.rs:69-113 | `take_step`, whether or not it succeeds, keeps the masses and total momentum and never drops a table key |
| AdaptiveNBody.AttemptConserves | src/space/simulation.rs:44-56 | a run of steps keeps the masses, the momentum and the table's keys |
| AdaptiveNBody.SmoothConserves | src/space/simulation.rs:43-58 | the retry loop keeps the momentum of the snapshot, and the precision table only grows across rollbacks |
| AdaptiveNBody.TakeStepSmoothConserves | src/space/simulation.rs:36-58 | `take_step_smooth` keeps the masses and total momentum and never drops a table key |
| AdaptiveNBody.RetryKeepsSchedule | src/space/simulation.rs:47-50 | halving `delta` and doubling `step_count` keeps `step_count == 2^(20 - try_count)` and `delta*step_count` equal to the request |
| AdaptiveNBody.AttemptIssueSticks | src/space/simulation.rs:44-54 | once a step of an attempt failed, further steps of that attempt change nothing |
| AdaptiveNBody.SmoothStaysOnSchedule | src/space/simulation.rs:37-58 | the retry loop ends on schedule, with no more tries than it started with, so after at most 20 issues |
| AdaptiveNBody.SmoothSettles | src/space/simulation.rs:40-58 | if all tries fail, positions and velocities end at the entry snapshot; otherwise the result is a clean attempt of the final step count and step size from the snapshot, with the table as it then was |
| AdaptiveNBody.FinalDelta | src/space/simulation.rs:66 | the clock advances by `requested / 2^retries`, which equals the request when there was no retry and differs from a nonzero request after any retry |
| AdaptiveNBody.RetryAfterIssue | src/space/simulation.rs:47-53 | after a failed attempt the loop goes on from the snapshot, with half the step, twice the steps, one try fewer and the table the failed attempt left |
| AdaptiveNBody.SpaceSimulation.KickPair | src/space/simulation.rs:79-109 | one pair iteration acts on the velocities and the table exactly as the pair step does |
| AdaptiveNBody.SpaceSimulation.Drift | src/space/simulation.rs:74-76 | every position moves by its velocity times `delta` before any pair is examined |
| AdaptiveNBody.SpaceSimulation.KickAll | src/space/simulation.rs:78-110 | the pair loop visits the pairs in order and returns at the first precision issue |
| AdaptiveNBody.SpaceSimulation.TakeStep | src/space/simulation.rs:69-113 | `take_step` is a drift followed by the pair loop, with its result |
| AdaptiveNBody.SpaceSimulation.RunAttempt | src/space/simulation.rs:44-56 | `step_count` steps of `delta`, stopping at the first precision issue |
| AdaptiveNBody.SpaceSimulation.Settle | src/space/simulation.rs:37-58 | the retry loop ends in the state and with the step size of the retry schedule |
| AdaptiveNBody.SpaceSimulation.ExtendTrails | src/space/simulation.rs:60-64 | every body in range gets exactly one trail point, its current position, and other trails are unchanged |
| AdaptiveNBody.SpaceSimulation.TakeStepSmooth | src/space/simulation.rs:36-67 | the settled state, one trail point per body, and `time` advanced by the final step size |
| Selection.FirstHit | src/space/scene/selection.rs:39 | there is a first intersection iff the ray hit something, and it is the nearest one |
| Selection.Update | src/space/scene/selection.rs:39-67 | the selection rule as a value: new markers and the events sent; `UpdateSameHit`, `UpdateNewHit`, `UpdateNoHit`, `UpdateInvariants` and `UpdateSettles` state it case by case |
| Selection.UpdateSameHit | src/space/scene/selection.rs:41-45 | hitting the current selection again changes no marker and sends no event |
| Selection.UpdateNewHit | src/space/scene/selection.rs:47-57 | a new hit `e` sends one selection event for `e` and sets both markers to `e`; the old `Previous` is deselected only if it was assigned |
| Selection.UpdateNoHit | src/space/scene/selection.rs:61-67 | without a body hit, an assigned `Current` is deselected and both markers are reset; otherwise nothing happens |
| Selection.UpdateInvariants | src/space/scene/selection.rs:39-67 | at most one event of each kind; only the hit body is selected, and it becomes `Current`; only assigned entities are deselected; `Current == Previous` is kept, and then the body deselected is never the one left selected |
| Selection.UpdateSettles | src/space/scene/selection.rs:39-67 | a second run with the same hit sends nothing and keeps the markers |
| Selection.UpdateRaycastWithCursor | src/space/scene/selection.rs:16-28 | without cursor events no source changes; otherwise every source casts from the last event's position |
| Selection.SelectionState.SelectionRaycastUpdate | src/space/scene/selection.rs:30-68 | the markers and the events appended are those of the selection rule applied to the nearest intersection |
| Selection.Painted | src/space/scene/selection.rs:75-79 | painting changes colours but never the set of materials |
| Selection.PaintedExactly | src/space/scene/selection.rs:75-79 | a material gets the colour iff some event's body uses it; every other material keeps its colour |
| Selection.Materials.Paint | src/space/scene/selection.rs:87-91 | the event loop paints, in order, every event's body that has a material |
| Selection.Materials.SelectCurrentBody | src/space/scene/selection.rs:70-80 | selected bodies' materials turn white, nothing else changes |
| Selection.Materials.DeselectPreviousBody | src/space/scene/selection.rs:82-92 | deselected bodies' materials turn grey, nothing else changes |
| Selection.FrameRecolours | src/space/scene/mod.rs:58-63 | in the scheduled order, a newly selected body ends the frame white, and a deselected body ends it grey unless it shares its material with the new selection |
| BevyState.State.OverwriteSet | src/space/simulation/mod.rs:34 | the state already current is refused with `AlreadyInState`; any other state replaces the scheduled change |
| BevyState.State.ApplyScheduled | src/space/simulation/mod.rs:46 | the state driver `add_state` installs: a scheduled change becomes the current state, and nothing is left scheduled |
| SimulationState.Flip | src/space/simulation/mod.rs:30-33 | the new state always differs from `before` |
| SimulationState.FlipTwice | src/space/simulation/mod.rs:30-33 | two flips restore the state |
| SimulationState.ToggleSimulationState | src/space/simulation/mod.rs:23-38 | no event schedules nothing; one or more events schedule the flip of the current state, and `unwrap` never fails |
| SimulationState.AfterFramesParity | src/space/simulation/mod.rs:27-37 | after a run of frames, the state has changed iff an odd number of frames had a toggle event |
| SimulationState.OneTogglePerFrame | src/space/simulation/mod.rs:27-37 | with one event per frame, the state after `n` frames has changed iff `n` is odd |
| SimulationState.Frame | src/space/simulation/mod.rs:44-54 | the simulation steps, by `percision` passes, iff the frame starts `Running` or receives a toggle event (the stage runs again after a transition to `Running`); otherwise no body moves; masses, names, radiuses and rotations are unchanged; the state ends the frame flipped iff it had a toggle event |
| ViewModes.Other | src/space/display/view_mode.rs:14-17 | `Realistic` becomes `Schematic` and back; the result always differs from the current view |
| ViewModes.OtherTwice | src/space/display/view_mode.rs:14-17 | two switches restore the view |
| ViewModes.ToggleMode | src/space/display/view_mode.rs:12-20 | with scan code 16 just pressed the other view is scheduled, otherwise nothing changes; `unwrap` never fails |
| ViewModes.AfterFrame | src/space/display/view_mode.rs:12-20 | the view changes after a frame iff scan code 16 was just pressed |
| ViewModes.TwoTogglesRestore | src/space/display/view_mode.rs:12-19 | two frames with the key pressed restore the original view |
| ViewModes.Frame | src/space/display/view_mode.rs:12-20 | one frame of the toggle system followed by the state driver leaves the view `AfterFrame` gives |

## Left out

- Floating point: `length`, `normalize` and f64 division are uninterpreted, and real arithmetic is exact. Rounding, NaN from a zero distance, and overflow of the numeric values are not modelled.
- NBody.SpaceSimulation.TakeStepSmooth: the `chrono` clock update (lines 168-171) is not modelled. It is a millisecond conversion of a float onto a calendar date.
- NBody.ForcesSize: the source computes the buffer length in `f32` (line 181). The model uses the exact `n*(n+1)/2`, which `f32` computes exactly only for small `n`.
- NBody.FromMatrixToVector: for `i = 0` the source's `(i - 1)` is a `usize` underflow. The model follows a build without overflow checks, where the product with `i` is still 0. A build with overflow checks would panic on every pair `(0, j)`. The build profile is not part of this model.
- The rayon parallel iterators and the `UnsafeCell` force buffer are modelled by their sequential meaning. Data races and the order of the parallel sum are not modelled.
- `calculate_body_rotation` (quaternions and `f32`) and `print_simulation_energy` are not part of this model.
- Trails are unbounded sequences. The ring buffer's eviction of the oldest point is not modelled.
- BodyStore.SpaceBodies.Remove: calling `remove` on a name whose entry is out of range panics in `swap_remove` (lines 75-79) and is excluded by the precondition. The source's own bug reaches it: after `remove("b")` on "a" at 0 and "b" at 1, "a" names slot 1 of a one-element store, and `remove("a")` panics. `BodyStore.SpaceBodies.RemoveCorrected` has the same precondition, which it never violates from a bijective map.
- AdaptiveNBody.SpaceSimulation.KickPair: the `info!` log line of a precision issue is left out.
- Selection: the Bevy queries are parameters. The nearest intersection comes from the ray caster as a list of entities. The bodies are a list of entities, and materials are a map from entity to handle. `camera.single()` panicking when there is not exactly one camera is not modelled. The material systems' `unwrap()` panics for an event body whose handle names no material; the model excludes it by requiring every body's handle to resolve (`Selection.HandlesResolve`), which is more than the source needs, since it unwraps only the handles of event bodies.
- Selection.SelectionState.constructor: the initial value of the `SelectedBody` markers belongs to the marker library, which is not part of this model. The model assumes it is the sentinel.
- BevyState: only the part of Bevy's `State<T>` the toggles use is modelled. Bevy's stage loop is not modelled in general: `SimulationState.Frame` writes out its one consequence for this plugin (the step system runs after a transition to `Running`), and `ViewModes.Frame` applies the change at the end of the frame. The enter/exit phases of a transition are not modelled; no system of the core uses them.
- AdaptiveNBody.SpaceSimulation.Valid: requires a trail for every body (`|trails| >= |positions|`), which excludes the `trails[i]` index panic of src/space/simulation.rs:60-64; the setup system pushes one trail per body it spawns (src/space/setup.rs:39), so the source's only constructor keeps it.
- SimulationState.Frame: the stage loop is taken from Bevy 0.9's design, whose source is not part of this model. Bevy's order of the toggle and step systems within the first run of the stage does not change the outcome, because the gate sees the state the frame started in until the driver applies the change.
- The NASA Horizons client, rendering, cameras, UI, keyboard glue and the constant solar-system data are outside the modelled core.

## Findings

| source | as written | input that shows it | evidently intended | confidence | as-written member | corrected member |
|---|---|---|---|---|---|---|
| src/space/simulation/space_simulation.rs:81-83 | after `swap_remove`, `remove` repoints whichever name holds the largest slot to the freed slot | bodies "a" at slot 0 and "b" at slot 1; `remove("b")` leaves "a" pointing at slot 1, which no longer exists, and slot 0 without a name; a following `remove("a")` then panics in `swap_remove(1)` on one-element arrays | repoint only the name of the body that `swap_remove` moved, the one that held the old last slot; when the last body itself is removed, repoint nothing | high, not executed | BodyStore.RemoveLastAsWrittenBreaks | BodyStore.SpaceBodies.RemoveCorrected |
