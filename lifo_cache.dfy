/** LIFOCache: a bounded dict plus the list `stack` to which every accepted
    put appends its key, updates included, so the stack may hold duplicates
    and keys already discarded; an overflowing put pops `stack[-2]`
    (caching/2-lifo_cache.py). */
module LifoCaching {
  import opened Wrappers
  import opened Seqs

  datatype State<K, V> = State(cacheData: map<K, V>, stack: seq<K>)

  /** What every put preserves: the bound, every cached key occurs somewhere
      in `stack`, and the top of the stack is a cached key. */
  ghost predicate Consistent<K, V>(s: State<K, V>, maxItems: nat) {
    && |s.cacheData| <= maxItems
    && (forall k :: k in s.cacheData ==> k in s.stack)
    && (|s.cacheData| > 0 ==> |s.stack| > 0 && Last(s.stack) in s.cacheData)
  }

  /** `put(key, item)`: the new state and the key announced by DISCARD, if any.
      Python's `stack.pop(-2)` needs two elements; `Consistent` supplies them. */
  function PutStep<K(==), V>(s: State<K, V>, maxItems: nat, key: Option<K>, item: Option<V>)
    : (r: (State<K, V>, Option<K>))
    requires maxItems >= 1 && Consistent(s, maxItems)
    ensures key.None? || item.None? ==> r == (s, None)
  {
    if key.None? || item.None? then (s, None)
    else
      var data := s.cacheData[key.value := item.value];
      var stack := s.stack + [key.value];
      if |data| > maxItems then
        var lastKey := stack[|stack| - 2];
        (State(data - {lastKey}, RemoveAt(stack, |stack| - 2)), Some(lastKey))
      else
        (State(data, stack), None)
  }

  /** The bound, and the stack covering the cached keys, hold after every put. */
  lemma PutStepConsistent<K, V>(s: State<K, V>, maxItems: nat, key: Option<K>, item: Option<V>)
    requires maxItems >= 1 && Consistent(s, maxItems)
    ensures Consistent(PutStep(s, maxItems, key, item).0, maxItems)
  {
    if key.Some? && item.Some? {
      var k, v := key.value, item.value;
      if k !in s.cacheData && |s.cacheData| == maxItems {
        PutNewKeyWhenFull(s, maxItems, k, v);
        PushPopCovers(s.cacheData, s.stack, k, v);
      } else {
        PutWithoutOverflow(s, maxItems, k, v);
      }
    }
  }

  /** Every accepted put pushes its key. Without overflow (a cached key, or
      a new key while there is room) the item is stored and nothing is
      discarded. */
  lemma PutWithoutOverflow<K, V>(s: State<K, V>, maxItems: nat, k: K, v: V)
    requires maxItems >= 1 && Consistent(s, maxItems)
    requires k in s.cacheData || |s.cacheData| < maxItems
    ensures PutStep(s, maxItems, Some(k), Some(v)) == (State(s.cacheData[k := v], s.stack + [k]), None)
  {
    if k in s.cacheData {
      assert |s.cacheData[k := v]| == |s.cacheData|;
    }
  }

  /** Overflow happens only for a new key at a full cache; its victim is
      `stack[-2]`, the key of the previous accepted put, which is always
      present (so `del` never fails) and is never the key just put. */
  lemma PutNewKeyWhenFull<K, V>(s: State<K, V>, maxItems: nat, k: K, v: V)
    requires maxItems >= 1 && Consistent(s, maxItems) && k !in s.cacheData && |s.cacheData| == maxItems
    ensures |s.stack| > 0 && Last(s.stack) in s.cacheData && Last(s.stack) != k
    ensures var d := Last(s.stack);
      PutStep(s, maxItems, Some(k), Some(v))
        == (State(s.cacheData[k := v] - {d}, s.stack[..|s.stack| - 1] + [k]), Some(d))
  {
    var d := Last(s.stack);
    assert PutStep(s, maxItems, Some(k), Some(v))
        == (State(s.cacheData[k := v] - {d}, RemoveAt(s.stack + [k], |s.stack| - 1)), Some(d)) by {
      assert |s.cacheData[k := v]| == maxItems + 1;
    }
    RemoveSecondLast(s.stack, k);
  }

  /** After an overflowing put, the stack without its old top still covers
      every cached key: the old top is the one key removed from the dict. */
  lemma PushPopCovers<K, V>(data: map<K, V>, stack: seq<K>, k: K, v: V)
    requires |stack| > 0 && Last(stack) in data && k !in data
    requires forall x :: x in data ==> x in stack
    ensures Consistent(State(data[k := v] - {Last(stack)}, stack[..|stack| - 1] + [k]), |data|)
  {
    var d := Last(stack);
    var cached := data[k := v] - {d};
    var pushed := stack[..|stack| - 1] + [k];
    RemoveKeyCard(data[k := v], d);
    forall x | x in cached ensures x in pushed {
      if x != k {
        var j :| 0 <= j < |stack| && stack[j] == x;
        assert j < |stack| - 1 && pushed[j] == x;
      }
    }
    assert Last(pushed) == k;
  }

  /** Updating a cached key pushes a duplicate onto the stack: the stack can
      name a key more than once. */
  lemma UpdatePushesDuplicate()
    ensures var s1 := PutStep(State(map[], []), 4, Some('A'), Some(1)).0;
            PutStep(s1, 4, Some('A'), Some(2)).0.stack == ['A', 'A']
  {
  }

  /** `get` is `dict.get(key, None)`. */
  function GetStep<K(==), V>(s: State<K, V>, key: Option<K>): (r: Option<V>)
    ensures r.Some? <==> key.Some? && key.value in s.cacheData
    ensures r.Some? ==> r.value == s.cacheData[key.value]
  {
    if key.Some? && key.value in s.cacheData then Some(s.cacheData[key.value]) else None
  }

  /** With capacity 2, put(A), put(B), put(C) discards B and keeps A and C. */
  lemma ScenarioEvictsPrevious()
    ensures PutStep(State(map[], []), 2, Some('A'), Some(1)) == (State(map['A' := 1], ['A']), None)
    ensures PutStep(State(map['A' := 1], ['A']), 2, Some('B'), Some(2))
      == (State(map['A' := 1, 'B' := 2], ['A', 'B']), None)
    ensures PutStep(State(map['A' := 1, 'B' := 2], ['A', 'B']), 2, Some('C'), Some(3))
      == (State(map['A' := 1, 'C' := 3], ['A', 'C']), Some('B'))
  {
    assert [] + ['A'] == ['A'];
    assert ['A'] + ['B'] == ['A', 'B'];
    assert RemoveAt(['A', 'B', 'C'], 1) == ['A', 'C'];
    assert ['A', 'B'] + ['C'] == ['A', 'B', 'C'];
    assert |map['A' := 1, 'B' := 2, 'C' := 3]| == 3;
    assert map['A' := 1, 'B' := 2, 'C' := 3] - {'B'} == map['A' := 1, 'C' := 3];
  }

  class LIFOCache<K(==), V> {
    const maxItems: nat
    var cacheData: map<K, V>
    var stack: seq<K>

    ghost function Snapshot(): State<K, V>
      reads this
    {
      State(cacheData, stack)
    }

    ghost predicate Valid()
      reads this
    {
      maxItems >= 1 && Consistent(Snapshot(), maxItems)
    }

    constructor (maxItems: nat)
      requires maxItems >= 1
      ensures Valid() && this.maxItems == maxItems
      ensures cacheData == map[] && stack == []
    {
      this.maxItems := maxItems;
      cacheData := map[];
      stack := [];
    }

    method Put(key: Option<K>, item: Option<V>) returns (discarded: Option<K>)
      requires Valid()
      modifies this
      ensures Valid()
      ensures (Snapshot(), discarded) == PutStep(old(Snapshot()), maxItems, key, item)
    {
      ghost var before := Snapshot();
      discarded := None;
      if key.Some? && item.Some? {
        var data := cacheData[key.value := item.value];
        var pushed := stack + [key.value];
        if |data| > maxItems {
          assert |before.cacheData| > 0;
          var lastKey := pushed[|pushed| - 2];
          cacheData, stack := data - {lastKey}, RemoveAt(pushed, |pushed| - 2);
          discarded := Some(lastKey);
        } else {
          cacheData, stack := data, pushed;
        }
      }
      assert (Snapshot(), discarded) == PutStep(before, maxItems, key, item);
      PutStepConsistent(before, maxItems, key, item);
    }

    /** Read-only: `dict.get`. */
    method Get(key: Option<K>) returns (r: Option<V>)
      ensures r.Some? <==> key.Some? && key.value in cacheData
      ensures r.Some? ==> r.value == cacheData[key.value]
    {
      if key.Some? && key.value in cacheData {
        return Some(cacheData[key.value]);
      }
      return None;
    }
  }
}
