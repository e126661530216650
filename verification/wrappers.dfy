/** The optional-value datatype the planner uses for JavaScript's `null`,
    `undefined` and (for computed numbers) `NaN`. */
module Wrappers {

  datatype Option<+T> = None | Some(value: T) {

    /** The `??` operator: the wrapped value, or `default` when absent. */
    function GetOr(default: T): T {
      match this
      case Some(v) => v
      case None => default
    }
  }
}
