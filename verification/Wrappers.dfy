/** Failure-carrying results shared by the other modules. */
module Wrappers {
  datatype Option<+T> = None | Some(value: T)

  datatype Result<+T> = Ok(value: T) | Err

  /** A remote lookup finds what is there or fails, unless remote calls are reliable. */
  method Lookup<K(==), V>(table: map<K, V>, key: K, reliable: bool) returns (r: Option<V>)
    ensures r.Some? ==> key in table && r.value == table[key]
    ensures reliable && key in table ==> r.Some?
  {
    var ok: bool := *;
    r := if (reliable || ok) && key in table then Some(table[key]) else None;
  }
}
