/** Optional values and results, used for Go's nil pointers and (value, error) returns. */
module Wrappers {

  /** A value that may be absent: a Go pointer field that is nil or set. */
  datatype Option<+T> = None | Some(value: T)

  /** The outcome of an operation that either yields a value or fails with an error. */
  datatype Result<+R, +E> = Success(value: R) | Failure(error: E)
}

/** The Go built-in types the translator's records are made of. */
module GoTypes {

  /** Go's int64: the width of every numeric descriptor and request field. */
  newtype int64 = x: int | -0x8000_0000_0000_0000 <= x < 0x8000_0000_0000_0000

  /** Go's byte: the file contents handed to the YAML decoder are a byte slice. */
  newtype byte = x: int | 0 <= x < 0x100

  /** A Go error value, known only by its message. */
  datatype Error = Error(message: string)
}
