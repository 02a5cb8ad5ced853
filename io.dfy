/**
 * Vocabulary shared by the adapter and its inner channel: bytes, the
 * non-blocking poll result, `io::Result` and the task context.
 */
module Io {

  /** A byte, `u8`. */
  newtype byte = x: int | 0 <= x < 0x100

  type Bytes = seq<byte>

  /** `std::io::ErrorKind`; the adapter treats errors as opaque values and only moves them around. */
  datatype ErrorKind = NotConnected | InvalidData | Other(code: int)

  /** `std::task::Poll`. */
  datatype Poll<T> = Pending | Ready(value: T)

  /** `std::io::Result`. */
  datatype IoResult<T> = Ok(value: T) | Err(error: ErrorKind)

  datatype Option<T> = None | Some(value: T)

  /**
   * The `Context` handed to a poll, reduced to what matters here: the
   * caller's own waker, or the no-op waker from `futures_task::noop_waker`
   * that discards wake-up requests.
   */
  datatype Waker = Caller | Noop

  function Min(a: int, b: int): (m: int)
    ensures m <= a && m <= b && (m == a || m == b)
  {
    if a <= b then a else b
  }
}
