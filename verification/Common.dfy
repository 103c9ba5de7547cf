/** Result types and facts about sequences shared by every model file. */
module Common {
  datatype Option<+T> = None | Some(value: T)

  datatype Result<+T, +E> = Ok(value: T) | Err(error: E)

  /** A nullable string as a condition sees it: absent and empty both count as "no". */
  predicate Truthy(s: Option<string>) {
    s.Some? && s.value != ""
  }
}
