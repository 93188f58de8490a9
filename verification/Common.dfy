/** Result types, and a fact about sets, shared by the other modules. */
module Common {

  datatype Option<+T> = None | Some(value: T) {
    function GetOr(default: T): T {
      match this
      case None => default
      case Some(v) => v
    }
  }

  /** A return value, or the exception a Python function raises instead. */
  datatype Result<+T, +E> = Ok(value: T) | Err(error: E)

  lemma SubsetSmaller<T>(a: set<T>, b: set<T>)
    requires a <= b
    ensures |a| <= |b|
  {
    assert b == a + (b - a);
  }

  lemma MinusTwice<K, V>(m: map<K, V>, a: set<K>, b: set<K>)
    ensures m - a - b == m - (a + b)
  {
  }

  lemma KeysGone<K, V>(m: map<K, V>, gone: set<K>)
    requires gone <= m.Keys
    ensures m.Keys - (m - gone).Keys == gone
  {
  }
}
