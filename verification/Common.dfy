/** Names shared by every table: row identifiers, optional values, lists without repeats. */
module Common {
  /** Stands for a UUID; fresh ones are larger than all earlier ones. */
  type Id = nat

  datatype Option<T> = None | Some(value: T)

  predicate Distinct<T(==)>(s: seq<T>) { forall i, j | 0 <= i < j < |s| :: s[i] != s[j] }
}
