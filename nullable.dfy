/** Java's null reference and its unchecked NullPointerException, made explicit. */
module Nullable {

  /** A Java reference that may be null: `None` is null. */
  datatype Option<T> = None | Some(value: T)

  /** How a Java expression ends: with a value, or by dereferencing null. */
  datatype Outcome<T> = Normal(value: T) | NullPointerException

  /** The unit value returned by a void method that completed normally. */
  datatype Unit = Unit
}
