/** Small wrapper datatypes shared by the whole model. */
module Results {

  /** Python's `None` / a present value (regex groups, optional matches). */
  datatype Option<+T> = None | Some(value: T)

  /** The value a call returns, or the uncaught exception that aborts it. */
  datatype Outcome<+T> = Ok(value: T) | Crashed

  /** Python truthiness of an optional string: present and non-empty. */
  predicate Truthy(o: Option<string>) {
    o.Some? && o.value != ""
  }
}
