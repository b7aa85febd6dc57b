/** Failure-compatible wrappers for the exceptions the stimulus code raises. */
module Results {

  /** The exceptions the model distinguishes. */
  datatype Error =
    | IndexOutOfRange(idx: int)        // np.unravel_index: index outside the parameter space
    | ZeroDivision                     // Python float division by a zero size
    | DomainError(message: string)     // ValueError raised by a stimulus guard
    | EmptyArray                       // min()/max() of a zero-size image
    | MissingArgument(name: string)    // a keyword the stimulus signature needs is absent
    | UnexpectedArguments(names: set<string>) // keywords a signature without **kwargs does not accept
    | DuplicateArgument(name: string)  // a call that passes the same keyword twice
    | WrongKind(name: string)          // a point where a number is expected, or vice versa
    | ZeroStep                         // np.arange with a step of zero
    | NonFinite                        // a numpy float division by zero, giving inf or nan pixels

  datatype Option<T> = None | Some(value: T)

  datatype Result<T> = Ok(value: T) | Err(error: Error) {
    predicate IsFailure() {
      Err?
    }

    function PropagateFailure<U>(): Result<U>
      requires Err?
    {
      Err(error)
    }

    function Extract(): T
      requires Ok?
    {
      value
    }
  }
}
