/** Errors raised by the system and the failure-compatible wrappers that carry them. */
module Outcomes {

  /** Every exception the modelled code can raise; the comment names the Python class. */
  datatype Error =
    | InvalidDp              // ValueError: dp outside the four unit directions
    | NonEmptyContext        // RuntimeError: Init over a non-empty context
    | NonPositivePush        // RuntimeError: Push with value <= 0
    | EmptyStack             // IndexError: pop from an empty stack
    | ZeroDivision           // ZeroDivisionError: floor division by zero
    | InvalidChar            // ValueError: chr() outside 0..0x10FFFF
    | InvalidResize          // ValueError: Resize(v) with v <= 1
    | NonUnitValue           // RuntimeError: Resize, U-turn or no-op over a value other than 1
    | InvalidNoOpLength      // ValueError: NoOp(length) with length <= 1
    | NegativeExponent       // a power tree with a negative exponent (Python yields a float)
    | UnresolvedTurn         // RuntimeError: a turn left in the path after tokenising
    | SingleForward          // RuntimeError: a run of one forward left in the path
    | IllFormedPath          // AssertionError: a path token that is not a run of forwards
    | UnexpectedToken        // NotImplementedError: an Init token after the first position
    | PopFromEmptyList       // IndexError: the packer's repair loop popped an empty list
    | IndexOutOfRange        // IndexError: the packer indexed past the op list
    | NotEnoughSpace         // NotEnoughSpace: operations left once the path is exhausted
    | InvalidColorName       // ValueError: unknown colour name
    | MathDomain             // ValueError: sqrt of a negative bound

  datatype Result<+T> = Ok(value: T) | Err(error: Error) {
    predicate IsFailure() {
      Err?
    }

    function PropagateFailure<U>(): Result<U>
      requires Err?
    {
      Err(error)
    }

    function Extract(): T
      requires Ok?
    {
      value
    }
  }

  /** The outcome of a call whose only product is a side effect. */
  datatype Outcome = Pass | Fail(error: Error)

  datatype Option<+T> = None | Some(value: T)
}
