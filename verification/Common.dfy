/** Shared value types. */
module Common {
  datatype Option<+T> = None | Some(value: T)

  /** A comparison of ids, as a strict order. */
  type IdOrder = (string, string) -> bool

  ghost predicate StrictTotal(before: IdOrder) {
    && (forall a, b :: before(a, b) ==> !before(b, a))
    && (forall a, b :: a != b ==> before(a, b) || before(b, a))
    && (forall a, b, c :: before(a, b) && before(b, c) ==> before(a, c))
  }
}
