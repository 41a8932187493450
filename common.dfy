/** Values shared by every module: optional values and results with an error text. */
module Common {
  datatype Option<T> = None | Some(value: T)

  /** A fallible outcome; `Err` carries the message the source reports. */
  datatype Result<T> = Ok(value: T) | Err(error: string)

  /** Rust's `u8`. */
  type Byte = x: int | 0 <= x < 256

  /** The answer a backend command gives: it completes, or it throws with a message. */
  datatype Reply = Done | Threw(message: string)
}
