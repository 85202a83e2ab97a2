/** BasicCache: a dict cache with no capacity limit (caching/0-basic_cache.py). */
module BasicCaching {
  import opened Wrappers

  /** `put` on the dict alone: a None key or item changes nothing, otherwise
      the key is bound to the item. Nothing is ever evicted. */
  function PutStep<K(==), V>(cacheData: map<K, V>, key: Option<K>, item: Option<V>): (r: map<K, V>)
    ensures key.None? || item.None? ==> r == cacheData
    ensures key.Some? && item.Some? ==> key.value in r && r[key.value] == item.value
    ensures cacheData.Keys <= r.Keys
    ensures forall k :: k in r && Some(k) != key ==> k in cacheData && r[k] == cacheData[k]
  {
    if key.Some? && item.Some? then cacheData[key.value := item.value] else cacheData
  }

  /** `get`: None for a None key or an absent key, the stored item otherwise. */
  function GetStep<K(==), V>(cacheData: map<K, V>, key: Option<K>): (r: Option<V>)
    ensures r.Some? <==> key.Some? && key.value in cacheData
    ensures r.Some? ==> r.value == cacheData[key.value]
  {
    if key.None? || key.value !in cacheData then None else Some(cacheData[key.value])
  }

  /** A put with both arguments present is seen by every later get of that
      key, whatever was stored before; a get of any other key is unaffected. */
  lemma PutThenGet<K, V>(cacheData: map<K, V>, k: K, v: V, other: Option<K>)
    ensures GetStep(PutStep(cacheData, Some(k), Some(v)), Some(k)) == Some(v)
    ensures other != Some(k) ==>
      GetStep(PutStep(cacheData, Some(k), Some(v)), other) == GetStep(cacheData, other)
  {
  }

  class BasicCache<K(==), V> {
    var cacheData: map<K, V>

    constructor ()
      ensures cacheData == map[]
    {
      cacheData := map[];
    }

    method Put(key: Option<K>, item: Option<V>)
      modifies this
      ensures cacheData == PutStep(old(cacheData), key, item)
    {
      if key.Some? && item.Some? {
        cacheData := cacheData[key.value := item.value];
      }
    }

    /** Read-only: the dict is not touched. */
    method Get(key: Option<K>) returns (r: Option<V>)
      ensures r.Some? <==> key.Some? && key.value in cacheData
      ensures r.Some? ==> r.value == cacheData[key.value]
    {
      if key.None? || key.value !in cacheData {
        return None;
      }
      return Some(cacheData[key.value]);
    }
  }
}
