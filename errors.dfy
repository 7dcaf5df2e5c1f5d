/** The error values the modelled operations return, and the result and option
    wrappers they are carried in. Only the variants of `GeoArrowError` that the
    modelled code produces are kept. */
module Errors {

  datatype GeoArrowError =
    | IncorrectType(reason: string)   // a homogeneous conversion met another geometry kind
    | General(reason: string)         // catch-all with a message
    | Overflow                        // an offset does not fit the target index width
    | GeozeroError(reason: string)    // a WKB/WKT text or byte stream that failed to parse

  datatype Option<+T> = None | Some(value: T)

  datatype Result<+T> = Ok(value: T) | Err(error: GeoArrowError) {
    predicate IsFailure() { Err? }

    function PropagateFailure<U>(): Result<U>
      requires Err?
    {
      Err(error)
    }

    function Extract(): T
      requires Ok?
    {
      value
    }
  }
}
