/** Types shared by every component of the model. */
module Types {

  datatype Option<T> = None | Some(value: T)

  /** A bar timestamp, already normalised to one UTC instant. */
  type Instant = int
}
