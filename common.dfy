/** Values shared by every module: Java's nullable references and the scalar
    types of the documents. */
module Common {

  /** A Java reference that may be null: None stands for null. */
  datatype Option<+T> = None | Some(value: T)

  /** The value of a computation that may throw instead. */
  datatype Result<+T, +E> = Ok(value: T) | Err(error: E)

  /** Document identifier (a MongoDB `_id` rendered as a string). */
  type Id = string

  /** A nullable `String` field. */
  type Text = Option<string>

  /** A `LocalDate`, as a day number. */
  type Date = int

  /** A `LocalDateTime`, as an instant number. */
  type DateTime = int
}
