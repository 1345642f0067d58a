/**
 * Shared value types: an optional value, and the Python exceptions that the
 * plugin raises or lets through, carried by a Result instead of being thrown.
 */
module Common {

  datatype Option<T> = None | Some(value: T)

  /** The exceptions the modelled code raises or propagates. */
  datatype PyError =
    | KeyError(key: string)
    | TypeError(what: string)
    | AttributeError(what: string)
    | IndexError(what: string)
    | ValueError(what: string)
    | ZeroDivisionError
    | AssertionError
    | NvimError(what: string)          // an error raised by an editor API call
    | RenderError(what: string)        // any exception raised by an output renderer
    | UnsupportedValue(what: string)   // a message field of a type the model does not carry
    | MagmaException(message: string)
    | MagmaIOError(message: string)

  datatype Result<T> = Ok(value: T) | Err(error: PyError)
  {
    predicate IsFailure() { Err? }

    function PropagateFailure<U>(): Result<U>
      requires Err?
    {
      Err(error)
    }

    function Extract(): T
      requires Ok?
    {
      value
    }
  }
}
