/** Failure values shared by the orbit engine.  Each constructor of `Error`
    stands for one exception the Python code can raise. */
module Results {

  datatype Error =
    | MissingKey(key: string)        // KeyError on a configuration lookup
    | UnknownMethod(name: string)    // ValueError from run_integration (lower-cased name)
    | EmptyArgmax                    // ValueError: argmax of an empty sequence
    | IndexOutOfRange                // IndexError on a trajectory buffer
    | ZeroStep                       // ZeroDivisionError from arange with step 0

  datatype Option<+T> = None | Some(value: T) {
    /** `dict.get(key, default)` once the lookup has been done. */
    function GetOr(default: T): T {
      match this
      case Some(v) => v
      case None => default
    }
  }

  datatype Result<+T> = Ok(value: T) | Err(error: Error)

  /** The outcome of a procedure that returns nothing but may raise. */
  datatype Outcome = Pass | Fail(error: Error)
}
