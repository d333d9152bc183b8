/**
 * Shared vocabulary: optional values, the 32-bit signed integer of the .NET
 * runtime, and the replies of the table store (a value, or the exception the
 * store client raises).
 */
module Common {

  datatype Option<+T> = None | Some(value: T)

  const Int32Min: int := -0x8000_0000
  const Int32Max: int := 0x7fff_ffff

  /** A C# `int`. */
  type int32 = x: int | -0x8000_0000 <= x <= 0x7fff_ffff

  /**
   * The unchecked C# `++` on an `int`: two's-complement addition of one,
   * which wraps from Int32Max to Int32Min.
   */
  function Inc32(x: int32): (r: int32)
    ensures x < Int32Max ==> r == x + 1
    ensures (r - x - 1) % 0x1_0000_0000 == 0
  {
    if x == Int32Max then Int32Min else x + 1
  }

  /**
   * What a failing store call throws: a `RequestFailedException` carrying
   * the HTTP status of the store's answer, or any other exception
   * (cancellation, a transport fault, a serialisation fault, ...).
   */
  datatype Failure = RequestFailed(status: int) | OtherException

  /** The store's "no such row" (or "no such table") answer. */
  const NotFound: Failure := RequestFailed(404)

  /** The exception filter `catch (RequestFailedException ex) when (ex.Status == 404)`. */
  predicate IsNotFound(f: Failure) {
    f.RequestFailed? && f.status == 404
  }

  /** The outcome of an asynchronous call: its value, or the exception it threw. */
  datatype Reply<+T> = Ok(value: T) | Failed(failure: Failure)
}
