/** Go's `for k := range m` visits every key of the map once, in an order the runtime chooses. */
module MapRange {

  /** `order` is an order in which `range` may visit a map whose keys are `keys`. */
  ghost predicate IterationOrder<K(!new)>(order: seq<K>, keys: set<K>) {
    && (forall k :: k in keys <==> k in order)
    && (forall i, j :: 0 <= i < j < |order| ==> order[i] != order[j])
  }
}
