/** Comparison functions as the source's sorts take them. */
module Orders {

  datatype Ordering = Less | Equal | Greater

  /** Not greater, i.e. `cmp(a, b).is_le()`. */
  predicate Le<T(!new)>(cmp: (T, T) -> Ordering, a: T, b: T) {
    cmp(a, b) != Greater
  }

  /** What every sort demands of its comparison. Different elements may compare equal. */
  ghost predicate TotalPreorder<T(!new)>(cmp: (T, T) -> Ordering) {
    && (forall a, b :: cmp(a, b) == Less <==> cmp(b, a) == Greater)
    && (forall a, b, c :: Le(cmp, a, b) && Le(cmp, b, c) ==> Le(cmp, a, c))
  }

  ghost predicate SortedBy<T(!new)>(s: seq<T>, cmp: (T, T) -> Ordering) {
    forall i, j | 0 <= i < j < |s| :: Le(cmp, s[i], s[j])
  }
}
