/** The runtime-check configuration of include/oath20/config.h, fixed with
    OATH_RUNTIME_CHECK on: every failed OATH_CHECK aborts the operation that
    ran it, before that operation changes any state, and reports which
    pointer it found null. */
module Checks {

  /** A nullable pointer to a value: `None` is nullptr. */
  datatype Option<T> = None | Some(value: T)

  /** The checked expression that failed. `NullData` and `NullHandle` are the
      null-access checks, `NullParent` the check that a popped frame has a
      parent. */
  datatype Violation =
    | NullData     // data != nullptr, in Handle::get
    | NullHandle   // handle != nullptr, in Owned and Borrowed
    | NullParent   // parent_node != nullptr, in Handle::return_handle

  /** The outcome of an operation that yields a value unless a check fails. */
  datatype Checked<T> = Pass(value: T) | Fail(violation: Violation)

  /** The outcome of an operation that yields nothing unless a check fails. */
  datatype Outcome = Done | Violated(violation: Violation)
}
