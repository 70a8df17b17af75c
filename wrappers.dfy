/** Optional values: a JSON field or environment variable that may be absent. */
module Wrappers {
  datatype Option<+T> = None | Some(value: T)

  /** JavaScript truthiness of an optional string: present and not empty. */
  predicate NonEmpty(s: Option<string>)
  {
    s.Some? && s.value != ""
  }
}
