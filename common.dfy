/** Shared value shapes: optional values (Go's nil pointers), results with an
    error (Go's `(T, error)` pairs), the errors the services distinguish, and a
    stand-in for the dynamically typed `interface{}` values that update maps
    and log fields carry. */
module Common {

  datatype Option<+T> = None | Some(value: T)

  /** The errors the services tell apart: GORM's "record not found" and any
      other error, identified by its message. */
  datatype Error = NotFound | Text(message: string)

  /** A Go `(T, error)` pair where exactly one side is meaningful. */
  datatype Result<+T> = Ok(value: T) | Err(error: Error)

  /** A dynamically typed value (`interface{}`), restricted to the kinds the
      modelled code stores. */
  datatype Value = Str(s: string) | Int(i: int) | Float(f: real) | Bool(b: bool)

  /** A timestamp, supplied by the caller instead of read from a clock. */
  type Time = int
}
