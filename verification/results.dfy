/** Failure-compatible result types shared by every constructor of the model.
    Each Python exception the constructors can raise becomes one `Error` kind. */
module Results {

  datatype Option<+T> = None | Some(value: T)

  /** The exceptions raised by the entity constructors, by cause. */
  datatype Error =
    | ConflictingKeys    // ValueError: both mutually exclusive keys were given
    | MissingKey         // neither key was given (AttributeError / UnboundLocalError)
    | InvalidLiteral     // ValueError raised by `int()` on a text key
    | InvalidQuery       // a text code that is not a number, spliced into SQL
    | MacroCodeNotFound  // ValueError: macroregion code outside 1..5
    | MacroNameNotFound  // ValueError: macroregion name not in the table
    | StateNotFound      // ValueError: the states query returned no row
    | NotDigits          // ValueError: municipality code has a non-digit
    | WrongLength        // ValueError: municipality code is not 7 characters
    | UnexpectedKeyword  // TypeError: call with a keyword the callee lacks

  /** Either the constructed value or the error that aborted construction. */
  datatype Result<+T> = Ok(value: T) | Err(error: Error) {

    predicate IsFailure() {
      Err?
    }

    function PropagateFailure<U>(): Result<U>
      requires Err?
    {
      Err(error)
    }

    function Extract(): T
      requires Ok?
    {
      value
    }
  }
}
