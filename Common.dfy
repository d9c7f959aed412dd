/** Small wrapper datatypes shared by the whole model. */
module Common {

  /** A JavaScript value that may be null or undefined. */
  datatype Option<T> = None | Some(value: T)

  /**
   * The outcome of an awaited network call: the resolved value, or a rejection.
   * The rejection's message only reaches an alert, so it carries nothing.
   */
  datatype Response<T> = Ok(value: T) | Err
}
