/** MRUCache: a bounded dict plus the list `usage_order`, least recently used
    first; put and a successful get move their key to the end, and an
    overflowing put pops `usage_order[-2]`, the most recently used key other
    than the one just put (caching/4-mru_cache.py). */
module MruCaching {
  import opened Wrappers
  import opened Seqs

  datatype State<K, V> = State(cacheData: map<K, V>, usageOrder: seq<K>)

  /** What put and get preserve: the bound, and `usage_order` is a
      duplicate-free listing of exactly the keys of `cache_data`. */
  ghost predicate Consistent<K, V>(s: State<K, V>, maxItems: nat) {
    |s.cacheData| <= maxItems && Tracked(s)
  }

  ghost predicate Tracked<K, V>(s: State<K, V>) {
    Lists(s.usageOrder, s.cacheData)
  }

  /** `put(key, item)`: the new state and the key announced by DISCARD, if any. */
  function PutStep<K(==), V>(s: State<K, V>, maxItems: nat, key: Option<K>, item: Option<V>)
    : (r: (State<K, V>, Option<K>))
    requires maxItems >= 1 && Consistent(s, maxItems)
    ensures key.None? || item.None? ==> r == (s, None)
  {
    if key.None? || item.None? then (s, None)
    else Overflow(Stored(s, key.value, item.value), maxItems)
  }

  /** The overflow check after a store: past `MAX_ITEMS` keys, pop
      `usage_order[-2]` and delete it from the dict. */
  function Overflow<K(==), V>(t: State<K, V>, maxItems: nat): (r: (State<K, V>, Option<K>))
    requires maxItems >= 1 && |t.usageOrder| == |t.cacheData|
  {
    if |t.cacheData| > maxItems then
      var i := |t.usageOrder| - 2;
      (EvictAt(t, i), Some(t.usageOrder[i]))
    else
      (t, None)
  }

  /** The state after the store and the move (or append) to the end of the
      order, before the overflow check. */
  function Stored<K(==), V>(s: State<K, V>, k: K, v: V): (t: State<K, V>)
    requires k in s.cacheData <==> k in s.usageOrder
    ensures |t.usageOrder| > 0 && Last(t.usageOrder) == k
    ensures |s.usageOrder| == |s.cacheData| ==> |t.usageOrder| == |t.cacheData|
  {
    var order := (if k in s.cacheData then RemoveFirst(s.usageOrder, k) else s.usageOrder) + [k];
    State(s.cacheData[k := v], order)
  }

  /** Deletes the key at position `i` of the order from the dict and the order. */
  function EvictAt<K(==), V>(t: State<K, V>, i: nat): State<K, V>
    requires i < |t.usageOrder|
  {
    State(t.cacheData - {t.usageOrder[i]}, RemoveAt(t.usageOrder, i))
  }

  /** `get(key)`: the new state (the key moved to the end) and the result. */
  function GetStep<K(==), V>(s: State<K, V>, key: Option<K>): (r: (State<K, V>, Option<V>))
    requires Tracked(s)
    ensures r.1.Some? <==> key.Some? && key.value in s.cacheData
    ensures r.1.Some? ==> r.1.value == s.cacheData[key.value]
    // a None or absent key changes nothing
    ensures r.1.None? ==> r.0 == s
  {
    if key.Some? && key.value in s.cacheData then
      (State(s.cacheData, RemoveFirst(s.usageOrder, key.value) + [key.value]), Some(s.cacheData[key.value]))
    else
      (s, None)
  }

  /** The bound and the agreement of `usage_order` with `cache_data` hold
      after every put when `MAX_ITEMS >= 1`. */
  lemma PutStepConsistent<K, V>(s: State<K, V>, maxItems: nat, key: Option<K>, item: Option<V>)
    requires maxItems >= 1 && Consistent(s, maxItems)
    ensures Consistent(PutStep(s, maxItems, key, item).0, maxItems)
  {
    if key.Some? && item.Some? {
      PutStoresTracked(s, maxItems, key.value, item.value);
      PutStoresBounded(s, maxItems, key.value, item.value);
    }
  }

  /** A put of a real key and item keeps the order in agreement with the dict. */
  lemma PutStoresTracked<K, V>(s: State<K, V>, maxItems: nat, k: K, v: V)
    requires maxItems >= 1 && Consistent(s, maxItems)
    ensures Tracked(PutStep(s, maxItems, Some(k), Some(v)).0)
  {
    StoredTracked(s, k, v);
    OverflowTracked(Stored(s, k, v), maxItems);
  }

  /** A put of a real key and item never leaves more than `MAX_ITEMS` keys. */
  lemma PutStoresBounded<K, V>(s: State<K, V>, maxItems: nat, k: K, v: V)
    requires maxItems >= 1 && Consistent(s, maxItems)
    ensures |PutStep(s, maxItems, Some(k), Some(v)).0.cacheData| <= maxItems
  {
    StoredTracked(s, k, v);
    OverflowBounded(Stored(s, k, v), maxItems);
  }

  /** The overflow check keeps the order in agreement with the dict. */
  lemma OverflowTracked<K, V>(t: State<K, V>, maxItems: nat)
    requires maxItems >= 1 && Tracked(t)
    ensures Tracked(Overflow(t, maxItems).0)
  {
    if |t.cacheData| > maxItems {
      EvictTracked(t, |t.usageOrder| - 2);
    }
  }

  /** When the store added at most one key, the overflow check restores the bound. */
  lemma OverflowBounded<K, V>(t: State<K, V>, maxItems: nat)
    requires maxItems >= 1 && Tracked(t) && |t.cacheData| <= maxItems + 1
    ensures |Overflow(t, maxItems).0.cacheData| <= maxItems
  {
    if |t.cacheData| > maxItems {
      EvictTracked(t, |t.usageOrder| - 2);
    }
  }

  /** Storing a key and moving it to the end keeps the order in agreement
      with the dict; the dict grows by one exactly when the key is new. */
  lemma StoredTracked<K, V>(s: State<K, V>, k: K, v: V)
    requires Tracked(s)
    ensures Tracked(Stored(s, k, v))
    ensures |Stored(s, k, v).cacheData| == if k in s.cacheData then |s.cacheData| else |s.cacheData| + 1
  {
    if k in s.cacheData {
      ListsMoveToEnd(s.usageOrder, s.cacheData, k, v);
    } else {
      ListsAppend(s.usageOrder, s.cacheData, k, v);
    }
  }

  /** Evicting the key at position `i` of the order from both fields keeps
      them in agreement and shrinks the dict by one. */
  lemma EvictTracked<K, V>(s: State<K, V>, i: nat)
    requires Tracked(s) && i < |s.usageOrder|
    ensures Tracked(EvictAt(s, i)) && |EvictAt(s, i).cacheData| == |s.cacheData| - 1
  {
    ListsRemoveAt(s.usageOrder, s.cacheData, i);
  }

  /** A get leaves the keys, values and bound alone and keeps the order consistent. */
  lemma GetStepConsistent<K, V>(s: State<K, V>, maxItems: nat, key: Option<K>)
    requires Consistent(s, maxItems)
    ensures Consistent(GetStep(s, key).0, maxItems)
    ensures GetStep(s, key).0.cacheData == s.cacheData
  {
    if key.Some? && key.value in s.cacheData {
      var k := key.value;
      ListsMoveToEnd(s.usageOrder, s.cacheData, k, s.cacheData[k]);
      assert s.cacheData[k := s.cacheData[k]] == s.cacheData;
    }
  }

  /** Re-putting a cached key stores the new item, makes the key the most
      recently used and discards nothing. */
  lemma PutCachedKey<K, V>(s: State<K, V>, maxItems: nat, k: K, v: V)
    requires maxItems >= 1 && Consistent(s, maxItems) && k in s.cacheData
    ensures PutStep(s, maxItems, Some(k), Some(v)) == (State(s.cacheData[k := v], RemoveFirst(s.usageOrder, k) + [k]), None)
  {
    assert |s.cacheData[k := v]| == |s.cacheData|;
  }

  /** A new key while there is room is stored and appended; nothing is discarded. */
  lemma PutNewKeyWithRoom<K, V>(s: State<K, V>, maxItems: nat, k: K, v: V)
    requires maxItems >= 1 && Consistent(s, maxItems) && k !in s.cacheData && |s.cacheData| < maxItems
    ensures PutStep(s, maxItems, Some(k), Some(v)) == (State(s.cacheData[k := v], s.usageOrder + [k]), None)
  {
  }

  /** A new key into a full cache discards the key that was most recently
      used before this put (`usage_order[-2]` once the new key is appended),
      never the new key, which becomes the most recently used. */
  lemma PutNewKeyWhenFull<K, V>(s: State<K, V>, maxItems: nat, k: K, v: V)
    requires maxItems >= 1 && Consistent(s, maxItems) && k !in s.cacheData && |s.cacheData| == maxItems
    ensures |s.usageOrder| > 0 && Last(s.usageOrder) in s.cacheData && Last(s.usageOrder) != k
    ensures var d := Last(s.usageOrder);
      PutStep(s, maxItems, Some(k), Some(v))
        == (State(s.cacheData[k := v] - {d}, s.usageOrder[..|s.usageOrder| - 1] + [k]), Some(d))
  {
    assert Stored(s, k, v) == State(s.cacheData[k := v], s.usageOrder + [k]);
    assert |s.cacheData[k := v]| == |s.cacheData| + 1;
    RemoveSecondLast(s.usageOrder, k);
  }

  /** A get followed by a put of a new key into a full cache discards exactly
      the key just read (with capacity 2, put(A), put(B), get(A), put(C)
      discards A and keeps B and C). */
  lemma GetThenPutEvictsIt<K, V>(s: State<K, V>, maxItems: nat, a: K, k: K, v: V)
    requires maxItems >= 1 && Consistent(s, maxItems) && |s.cacheData| == maxItems
    requires a in s.cacheData && k !in s.cacheData
    ensures var (s1, _) := GetStep(s, Some(a));
            var (s2, discarded) := PutStep(s1, maxItems, Some(k), Some(v));
            discarded == Some(a) && a !in s2.cacheData && k in s2.cacheData
  {
    var (s1, _) := GetStep(s, Some(a));
    GetStepConsistent(s, maxItems, Some(a));
    MoveToEndNoDup(s.usageOrder, a);
    PutNewKeyWhenFull(s1, maxItems, k, v);
  }

  class MRUCache<K(==), V> {
    const maxItems: nat
    var cacheData: map<K, V>
    var usageOrder: seq<K>

    ghost function Snapshot(): State<K, V>
      reads this
    {
      State(cacheData, usageOrder)
    }

    ghost predicate Valid()
      reads this
    {
      maxItems >= 1 && Consistent(Snapshot(), maxItems)
    }

    constructor (maxItems: nat)
      requires maxItems >= 1
      ensures Valid() && this.maxItems == maxItems
      ensures cacheData == map[] && usageOrder == []
    {
      this.maxItems := maxItems;
      cacheData := map[];
      usageOrder := [];
    }

    method Put(key: Option<K>, item: Option<V>) returns (discarded: Option<K>)
      requires Valid()
      modifies this
      ensures Valid()
      ensures (Snapshot(), discarded) == PutStep(old(Snapshot()), maxItems, key, item)
    {
      ghost var before := Snapshot();
      PutStepConsistent(before, maxItems, key, item);
      discarded := None;
      if key.Some? && item.Some? {
        StoredTracked(before, key.value, item.value);
        Store(key.value, item.value);
        ghost var stored := Snapshot();
        if |cacheData| > maxItems {
          discarded := PopMostRecentButOne();
        }
        assert (Snapshot(), discarded) == Overflow(stored, maxItems);
      }
    }

    /** `cache_data[key] = item` and the move (or append) of `key` to the
        end of `usage_order`. */
    method Store(k: K, v: V)
      requires k in cacheData <==> k in usageOrder
      modifies this
      ensures Snapshot() == Stored(old(Snapshot()), k, v)
    {
      ghost var before := Snapshot();
      if k in cacheData {
        usageOrder := RemoveFirst(usageOrder, k);
      }
      cacheData := cacheData[k := v];
      usageOrder := usageOrder + [k];
      assert Snapshot() == Stored(before, k, v);
    }

    /** `usage_order.pop(-2)` and the deletion of that key from `cache_data`. */
    method PopMostRecentButOne() returns (discarded: Option<K>)
      requires |usageOrder| >= 2
      modifies this
      ensures var i := |old(usageOrder)| - 2;
        Snapshot() == EvictAt(old(Snapshot()), i) && discarded == Some(old(usageOrder)[i])
    {
      ghost var before := Snapshot();
      var i := |usageOrder| - 2;
      var mruKey := usageOrder[i];
      usageOrder := RemoveAt(usageOrder, i);
      cacheData := cacheData - {mruKey};
      discarded := Some(mruKey);
    }

    method Get(key: Option<K>) returns (r: Option<V>)
      requires Valid()
      modifies this
      ensures Valid()
      ensures (Snapshot(), r) == GetStep(old(Snapshot()), key)
    {
      ghost var before := Snapshot();
      if key.None? || key.value !in cacheData {
        return None;
      }
      usageOrder := RemoveFirst(usageOrder, key.value) + [key.value];
      r := Some(cacheData[key.value]);
      assert Snapshot() == GetStep(before, key).0;
      GetStepConsistent(before, maxItems, key);
    }
  }
}
