/** Small result types shared by the other modules. */
module Wrappers {

  datatype Option<+T> = None | Some(value: T)

  /** The outcome of a Python call: it returns a value or raises an exception
      whose `str()` is `error`. */
  datatype Outcome<+T> = Returns(value: T) | Throws(error: string)
}
