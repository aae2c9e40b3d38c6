/** Optional values and results that carry the Python exception a step would raise. */
module Wrappers {

  /** A value that may be absent: a missing JSON key, a SQL NULL, Python's None. */
  datatype Option<+T> = None | Some(value: T) {

    /** The value, or `default` when absent (Python's `x if x is not None else default`). */
    function GetOr(default: T): T {
      match this
      case Some(v) => v
      case None => default
    }
  }

  /** Python truthiness of an optional string: present and not empty. */
  predicate Truthy(v: Option<string>) {
    v.Some? && v.value != ""
  }

  /** The exceptions the modelled code can raise and that its callers catch or propagate. */
  datatype Exception =
    | KeyError(key: string)          // `d[key]` on a dict without that key
    | IndexError(context: string)    // `xs[0]` on an empty list
    | TypeError(context: string)     // an operator applied to operands of the wrong types
    | JsonDecodeError                // `json.load` on a file that is not JSON
    | FileNotFound(program: string)  // a subprocess whose executable is not installed

  /** The outcome of a step that either returns a value or raises. */
  datatype Result<+T> = Ok(value: T) | Err(error: Exception) {

    predicate IsFailure() {
      Err?
    }

    function PropagateFailure<U>(): Result<U>
      requires Err?
    {
      Err(error)
    }

    function Extract(): T
      requires Ok?
    {
      value
    }
  }
}
