/** Failure-compatible result types shared by every module of the model.

    The Rust code returns `color_eyre::Result<T>` and builds its errors with
    `eyre!(...)` messages; here each message becomes a constructor of `Error`
    carrying the data the message reports. */
module Wrappers {

  datatype Option<+T> = None | Some(value: T)

  /** The kinds of failure the domain layer reports. */
  datatype Error =
    | Blank(what: string)                    // a code, name or date that is empty after trimming
    | Negative(what: string, value: real)    // a quantity, amount or ratio below zero
    | OutOfRange(what: string, value: real)  // a yield rate outside [0, 1]
    | MalformedDate(text: string)            // not Y?M?D with a valid calendar day
    | MalformedFreightCode(text: string)     // neither a number nor 'T' followed by four digits
    | NotFound(what: string, key: string)    // a repository lookup that has no entry for its key
    | MissingColumns(headers: seq<string>)   // required sheet headers that are absent, in order

  datatype Result<+T> = Success(value: T) | Failure(error: Error) {
    predicate IsFailure() {
      Failure?
    }

    function PropagateFailure<U>(): Result<U>
      requires Failure?
    {
      Failure(error)
    }

    function Extract(): T
      requires Success?
    {
      value
    }
  }
}
