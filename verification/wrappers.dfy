/** Optional values, the Python exceptions the modelled code raises, and one sequence fact. */
module Wrappers {

  datatype Option<+T> = None | Some(value: T) {
    function GetOr(default: T): T {
      match this
      case Some(v) => v
      case None => default
    }
  }

  /** The exception classes raised by the modelled code. */
  datatype ErrorKind =
    | TypeError
    | ValueError
    | KeyError
    | RuntimeError
    | NotImplementedError
    | FileNotFoundError
    | IsADirectoryError
    | FileExistsError
    | OSError
    | NoRecordError
    | AssertionError
    | IndexError
    | AttributeError
    | GenericException
    | InvalidRequest

  datatype PyError = PyError(kind: ErrorKind, msg: string)

  /** Either a value or a raised exception. */
  datatype Result<+T> = Ok(value: T) | Err(error: PyError) {
    predicate Raises(k: ErrorKind) {
      Err? && error.kind == k
    }

    predicate IsFailure() {
      Err?
    }

    function PropagateFailure<U>(): Result<U>
      requires Err?
    {
      Err(error)
    }

    function Extract(): T
      requires Ok?
    {
      value
    }
  }

  function Raise<T>(k: ErrorKind, msg: string): Result<T> {
    Err(PyError(k, msg))
  }

  /** Concatenation regroups freely: a step the solver is slow to find on its own. */
  lemma ConcatAssoc<X>(x: seq<X>, y: seq<X>, z: seq<X>)
    ensures x + (y + z) == (x + y) + z
  {
  }
}
