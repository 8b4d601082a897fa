/**
 * The task capability the select combinator consumes: a future that, polled
 * once, either reports `Pending` or finishes with its value.  A task is an
 * abstract state machine: a running task answers `Pending` as many more times
 * as `pendingLeft` says and then `Ready(value)`, after which it is consumed.
 */
module Tasks {

  /** The outcome of one poll, as `core::task::Poll`. */
  datatype Poll<T> = Ready(value: T) | Pending

  /** An optional slot, as Rust's `Option`. */
  datatype Option<T> = None | Some(value: T)

  /**
   * The state of one future.  `Completed` is a future that has already
   * returned `Ready`; polling it again has no defined behaviour, so no
   * operation of the model polls it.
   */
  datatype Task<T> = Running(pendingLeft: nat, value: T) | Completed

  /** One poll of this task returns `Ready`. */
  predicate IsReady<T>(t: Task<T>) {
    t.Running? && t.pendingLeft == 0
  }

  /** One poll of this task returns `Pending`. */
  predicate IsPending<T>(t: Task<T>) {
    t.Running? && t.pendingLeft > 0
  }

  /** One poll of a running task: what it returns and the state it is left in. */
  function Step<T>(t: Task<T>): (Poll<T>, Task<T>)
    requires t.Running?
  {
    if t.pendingLeft == 0 then (Ready(t.value), Completed)
    else (Pending, Running(t.pendingLeft - 1, t.value))
  }

  /** The state a running task is left in by one poll. */
  function Polled<T>(t: Task<T>): Task<T>
    requires t.Running?
  {
    Step(t).1
  }

  /**
   * A concrete future that some code owns and lends out by `&mut`: the object
   * whose state a poll advances in place.
   */
  class FutureObject<T> {
    var state: Task<T>

    constructor (t: Task<T>)
      ensures state == t
    {
      state := t;
    }

    /** The future's own `poll`: one step of its state machine, in place. */
    method Poll() returns (r: Poll<T>)
      requires state.Running?
      modifies this
      ensures (r, state) == Step(old(state))
    {
      r := Step(state).0;
      state := Step(state).1;
    }
  }
}
