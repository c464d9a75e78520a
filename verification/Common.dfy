/** What several modules share. */
module Common {

  datatype Option<T> = None | Some(value: T)

  /** No element occurs twice. */
  predicate Distinct<T(==)>(s: seq<T>) {
    forall k, l | 0 <= k < l < |s| :: s[k] != s[l]
  }
}
