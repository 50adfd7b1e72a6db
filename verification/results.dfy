/** Failure-compatible wrappers shared by every module, and the error kinds the
    interpreter can raise. */
module Results {

  datatype Option<+T> = None | Some(value: T)

  /** The ways an evaluation can end abnormally. */
  datatype Error =
    | ReferenceError(name: string)  // a name no environment on the chain owns
    | Unimplemented                 // an expression that matches no dispatch rule
    | TypeError                     // a property read of null or undefined, a call of a non-callable, ...
    | HostArithmetic                // a result JavaScript would compute by coercion or floating point
    | OutOfFuel                     // the model's bound on evaluation depth was reached

  datatype Result<+T> = Ok(value: T) | Err(error: Error) {

    predicate IsFailure() {
      Err?
    }

    function PropagateFailure<U>(): Result<U>
      requires Err?
    {
      Err(error)
    }

    function Extract(): T
      requires Ok?
    {
      value
    }
  }
}
