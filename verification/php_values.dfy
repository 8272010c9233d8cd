/** The two PHP value shapes the transport relies on: a value that may be
    `null`, and a call that either returns or throws an Exception. */
module PhpValues {

  /** A PHP value that may be `null`. */
  datatype Nullable<+T> = Null | Value(value: T) {

    /** PHP's null-coalescing `??`: the value itself unless it is `null`. An
        empty string or any other falsy value is kept. */
    function Coalesce(fallback: T): T
    {
      if Value? then value else fallback
    }
  }

  /** How a PHP call ends: it returns a value, or throws an Exception whose
      message is given. */
  datatype Returned<+R> = Returns(value: R) | Throws(message: string)
}
