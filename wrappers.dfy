/** Optional values, the error taxonomy of the translator, and a failure-compatible result type. */
module Wrappers {

  /** A value that may be absent (a C# null reference). */
  datatype Option<+T> = None | Some(value: T) {
    function GetOr(default: T): T {
      match this
      case Some(v) => v
      case None => default
    }
  }

  /** The exceptions the translator raises, one constructor per exception class it throws or lets escape. */
  datatype Error =
    | NotSupported(message: string)      // NotSupportedException: a construct the target format cannot express
    | Format(message: string)            // FormatException: an unsupported shape in a parsed web query, or a malformed number
    | Overflow(message: string)          // OverflowException: a number outside the range of its integer type
    | InvalidOperation(message: string)  // InvalidOperationException: no connection, or a duplicate where one item was expected
    | NullReference(message: string)     // NullReferenceException / ArgumentNullException: an absent child list or value
    | InvalidCast(message: string)       // InvalidCastException: an absent value converted to a number
    | MetadataNotFound(name: string)     // the metadata provider knows no entity of this name
    | Library(message: string)           // a failure reported by an external value formatter

  /** Either a value or the error that aborted the computation; usable with `:-`. */
  datatype Result<+T> = Ok(value: T) | Err(error: Error) {
    predicate IsFailure() {
      Err?
    }

    function PropagateFailure<U>(): Result<U>
      requires Err?
    {
      Err(error)
    }

    function Extract(): T
      requires Ok?
    {
      value
    }
  }

  /** The outcome of a check that produces no value; usable with `:-`. */
  datatype Outcome = Pass | Fail(error: Error) {
    predicate IsFailure() {
      Fail?
    }

    function PropagateFailure<U>(): Result<U>
      requires Fail?
    {
      Err(error)
    }
  }

  /** Passes when the condition holds, otherwise fails with `e`; used as `:- Need(c, e);`. */
  function Need(condition: bool, e: Error): Outcome
  {
    if condition then Pass else Fail(e)
  }
}
