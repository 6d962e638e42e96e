/** What a caller learns from a durable database. */
module Storage {
  /** A database write: confirmed, refused, or committed although an error is reported. */
  datatype Write = Done | Refused | Lost
}
