/** The program's exceptions as values. */
module Results {

  /**
   What is thrown: a field value out of range, a mode or instruction without support, a bad index, a trap, text that is
   not a module.
   */
  datatype Error = OutOfRange | Unsupported | BadIndex | Trapped | Malformed

  datatype Result<+T> = Ok(value: T) | Err(error: Error) {
    predicate IsFailure() { Err? }

    function PropagateFailure<U>(): Result<U>
      requires Err?
    {
      Err(error)
    }

    function Extract(): T
      requires Ok?
    {
      value
    }
  }

  /** A result without a value. */
  datatype Status = Done | Failed(error: Error) {
    predicate IsFailure() { Failed? }

    function PropagateFailure<U>(): Result<U>
      requires Failed?
    {
      Err(error)
    }
  }
}
