/** Shared vocabulary of the drill: words, day keys and the failure-carrying results. */
module Common {

  /** A word exactly as it is written in the catalog (case- and whitespace-sensitive). */
  type Word = string

  /** A day identifier as it appears in the JSON files: a string such as "1" or "12". */
  type DayKey = string

  datatype Option<+T> = None | Some(value: T)

  /** Either a value or the error the source reports instead of producing one. */
  datatype Result<+T, +E> = Ok(value: T) | Err(error: E)
}
