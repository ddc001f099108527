/** Shared result types and the few facts about maps that several modules need. */
module Prelude {

  datatype Option<+T> = None | Some(value: T)

  datatype Result<+T> = Ok(value: T) | Err(error: string)

  // Go visits the keys of a map in an arbitrary order, each exactly once.
  ghost predicate Enumerates<T>(order: seq<T>, keys: set<T>) {
    && (forall i :: 0 <= i < |order| ==> order[i] in keys)
    && (forall k :: k in keys ==> k in order)
    && forall i, j :: 0 <= i < j < |order| ==> order[i] != order[j]
  }

  lemma EnumeratesExtend<T>(order: seq<T>, keys: set<T>, k: T)
    requires Enumerates(order, keys) && k !in keys
    ensures Enumerates(order + [k], keys + {k})
  {
  }

  lemma EnumeratesPrefix<T>(order: seq<T>, keys: set<T>)
    requires Enumerates(order, keys) && order != []
    ensures order[|order| - 1] in keys
    ensures Enumerates(order[..|order| - 1], keys - {order[|order| - 1]})
  {
  }

  // One step of a loop that lays extra over base, key by key.
  lemma MergeOne<K, V>(base: map<K, V>, extra: map<K, V>, left: set<K>, k: K)
    requires k in left && k in extra
    ensures base + (extra - (left - {k})) == (base + (extra - left))[k := extra[k]]
  {
  }

  lemma MergeDone<K, V>(base: map<K, V>, extra: map<K, V>)
    ensures base + (extra - {}) == base + extra
    ensures base + (extra - extra.Keys) == base
  {
  }

  // One step of a loop that takes the keys of a map one by one.
  lemma TakeOne<T>(keys: set<T>, left: set<T>, x: T)
    requires left <= keys && x in left
    ensures keys - (left - {x}) == keys - left + {x}
    ensures x !in keys - left && x in keys && left - {x} <= keys && |left - {x}| < |left|
  {
  }

  lemma TakenAll<T>(keys: set<T>)
    ensures keys - {} == keys && keys - keys == {}
  {
  }
}
