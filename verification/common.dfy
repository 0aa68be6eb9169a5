/** Shared vocabulary: optional values, the Python exceptions the core raises or
    catches, and a result type that carries either a value or a raised exception. */
module Common {

  /** Python's `None` versus a present value. */
  datatype Option<T> = None | Some(value: T)

  /** The exception kinds that decide control flow in the core. Each
      constructor stands for the `except` clause that catches the exception,
      so a subclass is written as its catching class: a `UnicodeDecodeError`
      is a `ValueError` here, because `except ValueError` catches it.
      `OtherError` is an exception no handler of the core names.
      `WrappedException(e)` is the plain `Exception(e)` that the core raises
      when it re-raises an error it does not recognise; it keeps the cause. */
  datatype Exc =
    | IndexError
    | AttributeError
    | ValueError
    | TypeError
    | ZeroDivisionError
    | OtherError(name: string)
    | WrappedException(cause: Exc)

  /** Either a returned value or a raised exception. */
  datatype Result<T> = Ok(value: T) | Raise(error: Exc)

  /** Multiplying by a non-negative factor keeps the order. */
  lemma MulMono(a: int, b: int, c: int)
    requires a <= b && c >= 0
    ensures a * c <= b * c
  {
  }
}
