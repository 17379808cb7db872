/** Result and option types, and the error kinds that cross module boundaries. */
module Base {

  datatype Option<+T> = None | Some(value: T)

  /** The runtime's error taxonomy; the human-readable payloads are dropped. */
  datatype Error =
    | Config
    | InvalidComponent
    | Contract
    | ComponentNotFound
    | TenantNotFound
    | Oci
    | Wasm
    | Validation
    | Http
    | Io
    | DigestMismatch
    | LimitExceeded

  datatype Result<+T> = Ok(value: T) | Err(error: Error) {
    predicate IsFailure() {
      Err?
    }

    function PropagateFailure<U>(): Result<U>
      requires Err?
    {
      Err(error)
    }

    function Extract(): T
      requires Ok?
    {
      value
    }
  }

  datatype Unit = Unit

  // Machine integers of the 64-bit targets the runtime is built for.
  const TWO_63: int := 0x8000_0000_0000_0000
  const TWO_64: int := 0x1_0000_0000_0000_0000

  function Min(a: int, b: int): (m: int)
    ensures m <= a && m <= b && (m == a || m == b)
  {
    if a <= b then a else b
  }

  function Max(a: int, b: int): (m: int)
    ensures m >= a && m >= b && (m == a || m == b)
  {
    if a >= b then a else b
  }
}
