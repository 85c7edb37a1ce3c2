// Result and Option wrappers used for the Python exceptions and `None` returns
// of the modelled code.
module Wrappers {

  datatype Option<T> = None | Some(value: T)

  /** Python exceptions that the modelled code raises, by class; the last
      two stand for a resampling loop that has used up the draws it was given
      and for a loop that can never end. */
  datatype Error =
    | AssertionError(what: string)
    | KeyError(key: string)
    | IndexError(what: string)
    | ValueError(what: string)
    | AttributeError(what: string)
    | NameError(what: string)
    | ZeroDivisionError
    | TypeError(what: string)
    | UnboundLocalError(what: string)
    | SystemExit(what: string)
    | StopIteration
    | DrawsExhausted
    | Diverges

  datatype Result<T> = Ok(value: T) | Err(error: Error)
  {
    predicate IsOk() { Ok? }
  }
}
