// Shared vocabulary: optional values and document identities.
module Base {

  /** A value that may be absent (JavaScript `undefined`/`null`, or a failed lookup). */
  datatype Option<+T> = None | Some(value: T) {
    function GetOr(default: T): T {
      match this
      case Some(v) => v
      case None => default
    }
  }

  /** Document identities (MongoDB ObjectIds), allocated from a counter by the store. */
  type Id = nat

  /** Removing a key that an insertion added gives back the map before it. */
  lemma InsertThenRemove<K, V>(m: map<K, V>, k: K, v: V)
    requires k !in m
    ensures m[k := v] - {k} == m
  {
  }

  /** Writing back the old value of a key undoes an update of it. */
  lemma UpdateThenRestore<K, V>(m: map<K, V>, k: K, v: V)
    requires k in m
    ensures m[k := v][k := m[k]] == m
  {
  }
}
