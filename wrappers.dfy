/** Java's `null` and Java's uncaught exceptions, as values. */
module Wrappers {

  /** A Java reference that may be `null`: `None` stands for `null`. */
  datatype Option<+T> = None | Some(value: T)

  /** The way a Java call ends: it returns a value, or an
      `ArrayIndexOutOfBoundsException` escapes from it (the only exception
      the modelled code can raise that no `catch` of its own handles). */
  datatype Outcome<+T> = Returned(value: T) | ThrewIndexOutOfBounds
}
