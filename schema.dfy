/** The parts of Mongoose's schema semantics the models rely on. */
module Schema {
  import opened Wrappers

  /** A `required` string path is satisfied only by a non-empty string: absence and the
      empty string both fail. */
  predicate Present(field: Option<string>) {
    field.Some? && field.value != ""
  }

  /** The value of `key` in a request object, if it has one. */
  function Field(obj: map<string, string>, key: string): (r: Option<string>)
    ensures r.Some? <==> key in obj
    ensures r.Some? ==> r.value == obj[key]
  {
    if key in obj then Some(obj[key]) else None
  }
}
