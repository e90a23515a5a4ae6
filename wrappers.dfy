/** Optional values: a JSON body field or header that may be absent, a nullable column. */
module Wrappers {

  datatype Option<+T> = None | Some(value: T)

  /** JavaScript truthiness of an optional string: present and not the empty string. */
  predicate Present(o: Option<string>) {
    o.Some? && o.value != ""
  }
}
