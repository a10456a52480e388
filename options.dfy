/** The optional values of the JavaScript sources: `null`, `undefined` and a
    missing map entry all read as `None`. */
module Options {

  datatype Option<+T> = None | Some(value: T) {

    /** The value, or `default` when there is none (`x ?? default`). */
    function GetOr(default: T): T {
      match this
      case Some(v) => v
      case None => default
    }
  }

  /** JavaScript truthiness of an optional string: present and non-empty. */
  predicate Truthy(o: Option<string>) {
    o.Some? && o.value != ""
  }

  /** `x || null` on an optional string: the empty string becomes `null`. */
  function OrNull(o: Option<string>): (r: Option<string>)
    ensures r.None? <==> !Truthy(o)
    ensures r.Some? ==> r == o && r.value != ""
  {
    if Truthy(o) then o else None
  }

  /** Looking a key up in a map, `None` when it is absent. */
  function Lookup<K, V>(m: map<K, V>, k: K): (r: Option<V>)
    ensures r.None? <==> k !in m
    ensures r.Some? ==> k in m && m[k] == r.value
  {
    if k in m then Some(m[k]) else None
  }
}
