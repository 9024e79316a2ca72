/** How a step that touches the outside world can end. */
module Outcomes {

  /** `Raised` is an error the caller sees; `Crashed` kills the calling process on the spot. */
  datatype Outcome = Done | Raised | Crashed {

    predicate IsFailure() {
      !Done?
    }

    function PropagateFailure(): Outcome {
      this
    }
  }

  datatype Option<+T> = None | Some(value: T)
}
