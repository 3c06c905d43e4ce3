/** The result types shared by every component of the model. */
module Options {

  datatype Option<+T> = None | Some(value: T)

  /** A service call either commits and returns a value, or raises and is rolled back. */
  datatype Result<+T, +E> = Success(value: T) | Failure(error: E)

  /** Python truthiness of an optional string: present and not empty. */
  predicate Given(text: Option<string>) {
    text.Some? && text.value != ""
  }
}
