/**
 Results and exceptions shared by every layer of the client.

 A byte string (`std::string` in the client) is a Dafny `string`: one `char` is one byte,
 and no definition depends on which values a byte may take.
 */
module Prelude {

  datatype Option<+T> = None | Some(value: T)

  /** The exceptions the client lets escape, one constructor per C++ class. */
  datatype Exception =
    | ConnectionError
    | ProtocolError(message: string)
    | KeyError
    | RuntimeError
    | BadLexicalCast
    | OutOfRange
    | LengthError
    | BadGet

  /** A call either returns normally or throws. */
  datatype Result<+T> = Ok(value: T) | Err(error: Exception) {
    predicate IsFailure() {
      Err?
    }

    function PropagateFailure<U>(): Result<U>
      requires Err?
    {
      Err(error)
    }

    function Extract(): T
      requires Ok?
    {
      value
    }
  }
}
