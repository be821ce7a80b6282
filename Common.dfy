/** Helper types shared by the other modules. */
module Common {

  /** A value that may be absent: Java's `Optional`, or a nullable reference. */
  datatype Option<+T> = None | Some(value: T)
}
