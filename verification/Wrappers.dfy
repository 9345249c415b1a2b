/** The failure types the codec functions return. */
module Wrappers {

  datatype Option<+T> = None | Some(value: T)

  /** The decision a codec error carries; its message text is not modelled. */
  datatype ErrorKind =
    | MissingMagic
    | UnsupportedVersion
    | NeedsResolver
    | WrongForm
    | BaseDigestMismatch
    | Truncated
    | Malformed

  datatype Result<+T> = Ok(value: T) | Err(kind: ErrorKind) {
    predicate IsFailure() {
      Err?
    }

    function PropagateFailure<U>(): Result<U>
      requires Err?
    {
      Err(kind)
    }

    function Extract(): T
      requires Ok?
    {
      value
    }
  }
}
