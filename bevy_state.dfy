/**
 * The `State<T>` resource of the Bevy engine (0.9), as far as the toggles use
 * it: `current()` is the active state, and `overwrite_set` only schedules a
 * change, which the engine's state driver applies once the systems of the
 * frame have run.
 */
module BevyState {
  import opened Wrappers

  datatype StateError = AlreadyInState

  /** `Result<(), StateError>`. */
  datatype Outcome = Ok | Err(error: StateError)

  class State<T(==)> {
    var current: T
    var scheduled: Option<T>

    /** `app.add_state(initial)`. */
    constructor (initial: T)
      ensures current == initial && scheduled == None
    {
      current := initial;
      scheduled := None;
    }

    /**
     * `State::overwrite_set`: refuses the state that is already current,
     * otherwise replaces whatever change was scheduled by `next`.
     */
    method OverwriteSet(next: T) returns (r: Outcome)
      modifies this`scheduled
      ensures next == current ==> r == Err(AlreadyInState) && scheduled == old(scheduled)
      ensures next != current ==> r == Ok && scheduled == Some(next)
    {
      if next == current {
        return Err(AlreadyInState);
      }
      scheduled := Some(next);
      return Ok;
    }

    /** The state driver: a scheduled change becomes the current state. */
    method ApplyScheduled()
      modifies this
      ensures old(scheduled).Some? ==> current == old(scheduled).value
      ensures old(scheduled).None? ==> current == old(current)
      ensures scheduled == None
    {
      if scheduled.Some? {
        current := scheduled.value;
      }
      scheduled := None;
    }
  }
}
