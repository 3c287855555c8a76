/**
 * The iteration order of Java maps. HashMap and Map.of hand out their keys in
 * an order fixed by hashing (and, for Map.of, by a per-run salt), which the
 * program's output depends on wherever it walks a map: toJson writes members
 * in that order, and the ticket update applies body entries in it. The model
 * leaves the order open: any function from a key set to a listing of it.
 */
module KeyOrders {
  /** The order in which a Java map with the given keys hands them out. */
  type KeyOrder = set<string> -> seq<string>

  /** keys lists every element of ks exactly once. */
  predicate Enumerates(keys: seq<string>, ks: set<string>) {
    && (forall i :: 0 <= i < |keys| ==> keys[i] in ks)
    && (forall k :: k in ks ==> k in keys)
    && (forall i, j :: 0 <= i < j < |keys| ==> keys[i] != keys[j])
  }

  ghost predicate ValidOrder(order: KeyOrder) {
    forall ks :: Enumerates(order(ks), ks)
  }
}
