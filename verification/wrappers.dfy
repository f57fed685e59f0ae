/** Optional values: the model's rendering of JavaScript's `undefined`/`null`
    for fields, headers and query parameters that may be absent. */
module Wrappers {

  datatype Option<+T> = None | Some(value: T) {

    /** The value, or `default` when absent */
    function GetOr(default: T): T {
      match this
      case Some(v) => v
      case None => default
    }
  }

  /** JavaScript truthiness of an optional string: present and non-empty */
  predicate Truthy(o: Option<string>) {
    o.Some? && o.value != ""
  }

  /** The entry for `key` in `m`, if there is one */
  function Get<K, V>(m: map<K, V>, key: K): (r: Option<V>)
    ensures r.Some? <==> key in m
    ensures r.Some? ==> r.value == m[key]
  {
    if key in m then Some(m[key]) else None
  }
}
