/** Go's `for k, v := range m` visits every key once, in an order the language leaves unspecified. */
module GoMaps {
  /** `order` lists every key of `keys` exactly once: one possible iteration order. */
  ghost predicate Enumerates<K>(order: seq<K>, keys: set<K>) {
    && (forall k | k in keys :: k in order)
    && (forall i | 0 <= i < |order| :: order[i] in keys)
    && (forall i, j | 0 <= i < j < |order| :: order[i] != order[j])
  }
}
