/** LRUCache: a bounded dict plus the list `usage_order`, least recently used
    first; put and a successful get move their key to the end, and an
    overflowing put pops `usage_order[0]` (caching/3-lru_cache.py). */
module LruCaching {
  import opened Wrappers
  import opened Seqs

  datatype State<K, V> = State(cacheData: map<K, V>, usageOrder: seq<K>)

  /** What put and get preserve: the bound, and `usage_order` is a
      duplicate-free listing of exactly the keys of `cache_data`. */
  ghost predicate Consistent<K, V>(s: State<K, V>, maxItems: nat) {
    |s.cacheData| <= maxItems && Tracked(s)
  }

  ghost predicate Tracked<K, V>(s: State<K, V>) {
    Lists(s.usageOrder, s.cacheData)
  }

  /** `put(key, item)`: the new state and the key announced by DISCARD, if any. */
  function PutStep<K(==), V>(s: State<K, V>, maxItems: nat, key: Option<K>, item: Option<V>)
    : (r: (State<K, V>, Option<K>))
    requires Consistent(s, maxItems)
    ensures key.None? || item.None? ==> r == (s, None)
  {
    if key.None? || item.None? then (s, None)
    else
      var t := Stored(s, key.value, item.value);
      if |t.cacheData| > maxItems then
        (EvictAt(t, 0), Some(t.usageOrder[0]))
      else
        (t, None)
  }

  /** The state after the store and the move (or append) to the end of the
      order, before the overflow check. */
  function Stored<K(==), V>(s: State<K, V>, k: K, v: V): (t: State<K, V>)
    requires k in s.cacheData ==> k in s.usageOrder
    ensures |t.usageOrder| > 0 && Last(t.usageOrder) == k
  {
    var order := (if k in s.cacheData then RemoveFirst(s.usageOrder, k) else s.usageOrder) + [k];
    State(s.cacheData[k := v], order)
  }

  /** Deletes the key at position `i` of the order from the dict and the order. */
  function EvictAt<K(==), V>(t: State<K, V>, i: nat): State<K, V>
    requires i < |t.usageOrder|
  {
    State(t.cacheData - {t.usageOrder[i]}, RemoveAt(t.usageOrder, i))
  }

  /** `get(key)`: the new state (the key moved to the end) and the result. */
  function GetStep<K(==), V>(s: State<K, V>, key: Option<K>): (r: (State<K, V>, Option<V>))
    requires Tracked(s)
    ensures r.1.Some? <==> key.Some? && key.value in s.cacheData
    ensures r.1.Some? ==> r.1.value == s.cacheData[key.value]
    // a None or absent key changes nothing
    ensures r.1.None? ==> r.0 == s
  {
    if key.Some? && key.value in s.cacheData then
      (State(s.cacheData, RemoveFirst(s.usageOrder, key.value) + [key.value]), Some(s.cacheData[key.value]))
    else
      (s, None)
  }

  /** The bound and the agreement of `usage_order` with `cache_data` hold
      after every put when `MAX_ITEMS >= 1`. */
  lemma PutStepConsistent<K, V>(s: State<K, V>, maxItems: nat, key: Option<K>, item: Option<V>)
    requires maxItems >= 1 && Consistent(s, maxItems)
    ensures Consistent(PutStep(s, maxItems, key, item).0, maxItems)
  {
    if key.Some? && item.Some? {
      var t := Stored(s, key.value, item.value);
      StoredTracked(s, key.value, item.value);
      if |t.cacheData| > maxItems {
        EvictTracked(t, 0);
      }
    }
  }

  /** Storing a key and moving it to the end keeps the order in agreement
      with the dict; the dict grows by one exactly when the key is new. */
  lemma StoredTracked<K, V>(s: State<K, V>, k: K, v: V)
    requires Tracked(s)
    ensures Tracked(Stored(s, k, v))
    ensures |Stored(s, k, v).cacheData| == if k in s.cacheData then |s.cacheData| else |s.cacheData| + 1
  {
    if k in s.cacheData {
      ListsMoveToEnd(s.usageOrder, s.cacheData, k, v);
    } else {
      ListsAppend(s.usageOrder, s.cacheData, k, v);
    }
  }

  /** Evicting the key at position `i` of the order from both fields keeps
      them in agreement and shrinks the dict by one. */
  lemma EvictTracked<K, V>(s: State<K, V>, i: nat)
    requires Tracked(s) && i < |s.usageOrder|
    ensures Tracked(EvictAt(s, i)) && |EvictAt(s, i).cacheData| == |s.cacheData| - 1
  {
    ListsRemoveAt(s.usageOrder, s.cacheData, i);
  }

  /** A get leaves the keys, values and bound alone and keeps the order consistent. */
  lemma GetStepConsistent<K, V>(s: State<K, V>, maxItems: nat, key: Option<K>)
    requires Consistent(s, maxItems)
    ensures Consistent(GetStep(s, key).0, maxItems)
    ensures GetStep(s, key).0.cacheData == s.cacheData
  {
    if key.Some? && key.value in s.cacheData {
      var k := key.value;
      ListsMoveToEnd(s.usageOrder, s.cacheData, k, s.cacheData[k]);
      assert s.cacheData[k := s.cacheData[k]] == s.cacheData;
    }
  }

  /** A put stores its item and makes its key the most recently used. An
      update never evicts; a new key evicts exactly when the cache was full,
      and then the victim is `usage_order[0]`, the least recently used key,
      never the key just put. */
  lemma PutStepEviction<K, V>(s: State<K, V>, maxItems: nat, k: K, v: V)
    requires maxItems >= 1 && Consistent(s, maxItems)
    ensures var (r, discarded) := PutStep(s, maxItems, Some(k), Some(v));
      && k in r.cacheData && r.cacheData[k] == v
      && |r.usageOrder| > 0 && Last(r.usageOrder) == k
      && (discarded.Some? <==> k !in s.cacheData && |s.cacheData| == maxItems)
      && (discarded.None? ==>
            && r.cacheData == s.cacheData[k := v]
            && r.usageOrder == (if k in s.cacheData then RemoveFirst(s.usageOrder, k) else s.usageOrder) + [k])
      && (discarded.Some? ==>
            && discarded.value == s.usageOrder[0] && discarded.value != k
            && r.cacheData == s.cacheData[k := v] - {discarded.value}
            && r.usageOrder == s.usageOrder[1..] + [k])
  {
    var t := Stored(s, k, v);
    StoredTracked(s, k, v);
    if k in s.cacheData {
      MoveToEndNoDup(s.usageOrder, k);
      assert |t.cacheData| == |s.cacheData|;
    } else if |s.cacheData| == maxItems {
      assert t.usageOrder == s.usageOrder + [k];
      assert t.usageOrder[0] == s.usageOrder[0] && t.usageOrder[0] != k;
      assert RemoveAt(t.usageOrder, 0) == s.usageOrder[1..] + [k];
    } else {
      assert |t.cacheData| <= maxItems;
    }
  }

  /** A key just read is the most recently used, so when the cache holds at
      least two keys the next overflowing put discards some other key (with
      capacity 2, put(A), put(B), get(A), put(C) discards B). */
  lemma GetProtectsFromEviction<K, V>(s: State<K, V>, maxItems: nat, a: K, k: K, v: V)
    requires maxItems >= 2 && Consistent(s, maxItems) && |s.cacheData| == maxItems
    requires a in s.cacheData && k !in s.cacheData
    ensures var (s1, _) := GetStep(s, Some(a));
            var (s2, discarded) := PutStep(s1, maxItems, Some(k), Some(v));
            discarded.Some? && discarded.value != a && a in s2.cacheData
  {
    var (s1, _) := GetStep(s, Some(a));
    GetStepConsistent(s, maxItems, Some(a));
    MoveToEndNoDup(s.usageOrder, a);
    assert s1.usageOrder[0] != a by {
      assert |s1.usageOrder| >= 2 && Last(s1.usageOrder) == a;
    }
    PutStepEviction(s1, maxItems, k, v);
  }

  class LRUCache<K(==), V> {
    const maxItems: nat
    var cacheData: map<K, V>
    var usageOrder: seq<K>

    ghost function Snapshot(): State<K, V>
      reads this
    {
      State(cacheData, usageOrder)
    }

    ghost predicate Valid()
      reads this
    {
      maxItems >= 1 && Consistent(Snapshot(), maxItems)
    }

    constructor (maxItems: nat)
      requires maxItems >= 1
      ensures Valid() && this.maxItems == maxItems
      ensures cacheData == map[] && usageOrder == []
    {
      this.maxItems := maxItems;
      cacheData := map[];
      usageOrder := [];
    }

    method Put(key: Option<K>, item: Option<V>) returns (discarded: Option<K>)
      requires Valid()
      modifies this
      ensures Valid()
      ensures (Snapshot(), discarded) == PutStep(old(Snapshot()), maxItems, key, item)
    {
      ghost var before := Snapshot();
      discarded := None;
      if key.Some? && item.Some? {
        var k := key.value;
        var order := usageOrder;
        if k in cacheData {
          order := RemoveFirst(order, k);
        }
        var data := cacheData[k := item.value];
        order := order + [k];
        if |data| > maxItems {
          var lruKey := order[0];
          cacheData, usageOrder := data - {lruKey}, RemoveAt(order, 0);
          discarded := Some(lruKey);
        } else {
          cacheData, usageOrder := data, order;
        }
      }
      assert (Snapshot(), discarded) == PutStep(before, maxItems, key, item);
      PutStepConsistent(before, maxItems, key, item);
    }

    method Get(key: Option<K>) returns (r: Option<V>)
      requires Valid()
      modifies this
      ensures Valid()
      ensures (Snapshot(), r) == GetStep(old(Snapshot()), key)
    {
      ghost var before := Snapshot();
      if key.None? || key.value !in cacheData {
        return None;
      }
      usageOrder := RemoveFirst(usageOrder, key.value) + [key.value];
      r := Some(cacheData[key.value]);
      assert Snapshot() == GetStep(before, key).0;
      GetStepConsistent(before, maxItems, key);
    }
  }
}
