/** The optional value used wherever the source has `null`, a missing JSON key or a falsy value. */
module Wrappers {

  datatype Option<T> = None | Some(value: T)

  /** A truthy string in JavaScript: present and not the empty string. */
  predicate Truthy(s: Option<string>) {
    s.Some? && s.value != ""
  }
}
