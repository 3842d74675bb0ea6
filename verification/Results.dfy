/** Bytes, optional values and raised exceptions, shared by every other module. */
module Results {

  type byte = x: int | 0 <= x < 256

  type bytes = seq<byte>

  datatype Option<+T> = None | Some(value: T)

  /** The exceptions that can leave the modelled code, by the class a caller can tell apart. */
  datatype Exn =
    | DecryptionError
    | SerializationError
    | ConfigurationError
    | InvalidToken       // raised inside the Fernet library
    | BinasciiError      // malformed base64
    | UnicodeEncodeError // non-ASCII stored text
    | JsonError          // opened plaintext that is not JSON
    | OtherError

  datatype Result<+T> = Ok(value: T) | Raise(exn: Exn) {
    predicate IsFailure() { Raise? }

    function PropagateFailure<U>(): Result<U>
      requires Raise?
    {
      Raise(exn)
    }

    function Extract(): T
      requires Ok?
    {
      value
    }
  }
}
