/** FIFOCache: a bounded dict plus the list `order` of keys in first-insertion
    order; an overflowing put discards `order[0]` (caching/1-fifo_cache.py). */
module FifoCaching {
  import opened Wrappers
  import opened Seqs

  datatype State<K, V> = State(cacheData: map<K, V>, order: seq<K>)

  /** What every put preserves: the bound, and `order` lists each key of
      `cache_data` exactly once. */
  ghost predicate Consistent<K, V>(s: State<K, V>, maxItems: nat) {
    |s.cacheData| <= maxItems && Lists(s.order, s.cacheData)
  }

  /** `put(key, item)`: the new state and the key announced by DISCARD, if any. */
  function PutStep<K(==), V>(s: State<K, V>, maxItems: nat, key: Option<K>, item: Option<V>)
    : (r: (State<K, V>, Option<K>))
    requires Consistent(s, maxItems)
    // a None key or item is a no-op
    ensures key.None? || item.None? ==> r == (s, None)
    // the item is stored under its key
    ensures key.Some? && item.Some? && r.1 != key ==> key.value in r.0.cacheData && r.0.cacheData[key.value] == item.value
  {
    if key.None? || item.None? then (s, None)
    else
      var k := key.value;
      var order := if k in s.cacheData then s.order else s.order + [k];
      var data := s.cacheData[k := item.value];
      if |data| > maxItems then
        (State(data - {order[0]}, order[1..]), Some(order[0]))
      else
        (State(data, order), None)
  }

  /** The capacity bound and the agreement of `order` with `cache_data` hold
      after every put when `MAX_ITEMS >= 1`. */
  lemma PutStepConsistent<K, V>(s: State<K, V>, maxItems: nat, key: Option<K>, item: Option<V>)
    requires maxItems >= 1 && Consistent(s, maxItems)
    ensures Consistent(PutStep(s, maxItems, key, item).0, maxItems)
  {
    if key.Some? && item.Some? {
      var k := key.value;
      var order := if k in s.cacheData then s.order else s.order + [k];
      var data := s.cacheData[k := item.value];
      if k in s.cacheData {
        ListsUpdate(s.order, s.cacheData, k, item.value);
      } else {
        ListsAppend(s.order, s.cacheData, k, item.value);
      }
      if |data| > maxItems {
        ListsRemoveAt(order, data, 0);
        assert order[1..] == RemoveAt(order, 0);
      }
    }
  }

  /** Eviction happens exactly when a new key arrives at a full cache; the
      victim is `order[0]`, the oldest inserted key still present, it is gone
      afterwards, and the new key is kept at the end of the order. */
  lemma PutStepEviction<K, V>(s: State<K, V>, maxItems: nat, key: Option<K>, item: Option<V>)
    requires maxItems >= 1 && Consistent(s, maxItems)
    ensures var (r, discarded) := PutStep(s, maxItems, key, item);
      && (discarded.Some? <==> key.Some? && item.Some? && key.value !in s.cacheData && |s.cacheData| == maxItems)
      && (discarded.Some? ==>
            && discarded.value == s.order[0] && discarded.value != key.value
            && discarded.value !in r.cacheData && key.value in r.cacheData
            && r.order == s.order[1..] + [key.value])
  {
    if key.Some? && item.Some? && key.value !in s.cacheData && |s.cacheData| == maxItems {
      var order := s.order + [key.value];
      assert |order| >= 2 && order[0] != Last(order);
    }
  }

  /** Re-putting a present key replaces its value, keeps its position in
      `order` and evicts nothing; a new key without overflow is appended. */
  lemma PutStepPlacement<K, V>(s: State<K, V>, maxItems: nat, k: K, v: V)
    requires maxItems >= 1 && Consistent(s, maxItems)
    ensures var (r, discarded) := PutStep(s, maxItems, Some(k), Some(v));
      && (k in s.cacheData ==> r.order == s.order && discarded == None && r.cacheData == s.cacheData[k := v])
      && (k !in s.cacheData && discarded.None? ==> r.order == s.order + [k] && r.cacheData == s.cacheData[k := v])
  {
  }

  /** Every key other than the put key and the victim keeps its value, and no
      key appears except the put key. */
  lemma PutStepFrame<K, V>(s: State<K, V>, maxItems: nat, key: Option<K>, item: Option<V>)
    requires maxItems >= 1 && Consistent(s, maxItems)
    ensures var (r, discarded) := PutStep(s, maxItems, key, item);
      && (forall x :: x in s.cacheData && Some(x) != key && Some(x) != discarded ==>
            x in r.cacheData && r.cacheData[x] == s.cacheData[x])
      && (forall x :: x in r.cacheData ==> x in s.cacheData || Some(x) == key)
  {
  }

  /** `get` as `dict` lookup: None for a None or absent key. */
  function GetStep<K(==), V>(s: State<K, V>, key: Option<K>): (r: Option<V>)
    ensures r.Some? <==> key.Some? && key.value in s.cacheData
    ensures r.Some? ==> r.value == s.cacheData[key.value]
  {
    if key.None? || key.value !in s.cacheData then None else Some(s.cacheData[key.value])
  }

  /** With capacity 2, put(A), put(B), put(C) discards A and keeps B and C. */
  lemma ScenarioEvictsOldest()
    ensures PutStep(State(map[], []), 2, Some('A'), Some(1)) == (State(map['A' := 1], ['A']), None)
    ensures PutStep(State(map['A' := 1], ['A']), 2, Some('B'), Some(2))
      == (State(map['A' := 1, 'B' := 2], ['A', 'B']), None)
    ensures PutStep(State(map['A' := 1, 'B' := 2], ['A', 'B']), 2, Some('C'), Some(3))
      == (State(map['B' := 2, 'C' := 3], ['B', 'C']), Some('A'))
  {
    assert [] + ['A'] == ['A'];
    assert ['A'] + ['B'] == ['A', 'B'];
    assert (['A', 'B'] + ['C'])[1..] == ['B', 'C'];
    assert |map['A' := 1, 'B' := 2, 'C' := 3]| == 3;
    assert map['A' := 1, 'B' := 2, 'C' := 3] - {'A'} == map['B' := 2, 'C' := 3];
  }

  class FIFOCache<K(==), V> {
    const maxItems: nat
    var cacheData: map<K, V>
    var order: seq<K>

    ghost function Snapshot(): State<K, V>
      reads this
    {
      State(cacheData, order)
    }

    ghost predicate Valid()
      reads this
    {
      maxItems >= 1 && Consistent(Snapshot(), maxItems)
    }

    constructor (maxItems: nat)
      requires maxItems >= 1
      ensures Valid() && this.maxItems == maxItems
      ensures cacheData == map[] && order == []
    {
      this.maxItems := maxItems;
      cacheData := map[];
      order := [];
    }

    method Put(key: Option<K>, item: Option<V>) returns (discarded: Option<K>)
      requires Valid()
      modifies this
      ensures Valid()
      ensures (Snapshot(), discarded) == PutStep(old(Snapshot()), maxItems, key, item)
    {
      ghost var before := Snapshot();
      discarded := None;
      if key.Some? && item.Some? {
        var k := key.value;
        if k !in cacheData {
          order := order + [k];
        }
        cacheData := cacheData[k := item.value];
        if |cacheData| > maxItems {
          var firstKey := order[0];
          order := order[1..];
          cacheData := cacheData - {firstKey};
          discarded := Some(firstKey);
        }
      }
      assert (Snapshot(), discarded) == PutStep(before, maxItems, key, item);
      PutStepConsistent(before, maxItems, key, item);
    }

    /** Read-only: neither field is touched. */
    method Get(key: Option<K>) returns (r: Option<V>)
      ensures r.Some? <==> key.Some? && key.value in cacheData
      ensures r.Some? ==> r.value == cacheData[key.value]
    {
      if key.None? || key.value !in cacheData {
        return None;
      }
      return Some(cacheData[key.value]);
    }
  }
}
