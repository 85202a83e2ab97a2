/** LFUCache: a bounded dict, a per-key use count `usage_frequency` and the
    recency list `usage_order`; a put of a new key into a full cache first
    discards the least frequently used key, the least recently used among
    ties, and only then inserts (caching/100-lfu_cache.py). */
module LfuCaching {
  import opened Wrappers
  import opened Seqs

  datatype State<K, V> = State(cacheData: map<K, V>, usageFrequency: map<K, nat>, usageOrder: seq<K>)

  /** The keys of the three fields coincide and `usage_order` has no duplicates. */
  ghost predicate Tracked<K, V>(s: State<K, V>) {
    Lists(s.usageOrder, s.cacheData) && s.usageFrequency.Keys == s.cacheData.Keys
  }

  /** What put and get preserve. */
  ghost predicate Consistent<K, V>(s: State<K, V>, maxItems: nat) {
    |s.cacheData| <= maxItems && Tracked(s)
  }

  /** `min(usage_frequency.values())`, computed along `usage_order`, which
      lists the same keys (see MinFrequencyOfValues). */
  function MinFrequency<K>(order: seq<K>, freq: map<K, nat>): nat
    requires |order| > 0 && forall k :: k in order ==> k in freq
  {
    if |order| == 1 then freq[order[0]]
    else
      var m := MinFrequency(order[..|order| - 1], freq);
      if freq[Last(order)] < m then freq[Last(order)] else m
  }

  /** `[k for k in usage_order if usage_frequency[k] == min_freq]`. */
  function KeysWithFrequency<K>(order: seq<K>, freq: map<K, nat>, m: nat): (r: seq<K>)
    requires forall k :: k in order ==> k in freq
    ensures |r| <= |order|
    ensures forall k :: k in r ==> k in order && freq[k] == m
    ensures (forall k :: k in order ==> freq[k] != m) ==> r == []
  {
    if order == [] then []
    else
      var init := KeysWithFrequency(order[..|order| - 1], freq, m);
      if freq[Last(order)] == m then init + [Last(order)] else init
  }

  /** The key put discards: the first of the least frequently used keys in
      recency order. */
  function Victim<K>(order: seq<K>, freq: map<K, nat>): (v: K)
    requires |order| > 0 && forall k :: k in order ==> k in freq
    ensures v in order
  {
    MinFrequencyAttained(order, freq);
    KeysWithFrequencyFirst(order, freq, MinFrequency(order, freq));
    KeysWithFrequency(order, freq, MinFrequency(order, freq))[0]
  }

  /** MinFrequency is a lower bound of the frequencies along the order and is
      the frequency of one of its keys. */
  lemma {:induction false} MinFrequencyAttained<K>(order: seq<K>, freq: map<K, nat>)
    requires |order| > 0 && forall k :: k in order ==> k in freq
    ensures forall k :: k in order ==> MinFrequency(order, freq) <= freq[k]
    ensures exists k :: k in order && freq[k] == MinFrequency(order, freq)
  {
    if |order| > 1 {
      var init := order[..|order| - 1];
      assert forall k :: k in order ==> k in init || k == Last(order) by {
        assert order == init + [Last(order)];
      }
      MinFrequencyAttained(init, freq);
      var w :| w in init && freq[w] == MinFrequency(init, freq);
      assert w in order;
    } else {
      assert order[0] in order;
    }
  }

  /** When the keys of `usage_frequency` are exactly those of `usage_order`,
      MinFrequency is `min(usage_frequency.values())`. */
  lemma MinFrequencyOfValues<K>(order: seq<K>, freq: map<K, nat>)
    requires |order| > 0
    requires forall k :: k in order ==> k in freq
    requires forall k :: k in freq ==> k in order
    ensures MinFrequency(order, freq) in freq.Values
    ensures forall x :: x in freq.Values ==> MinFrequency(order, freq) <= x
  {
    MinFrequencyAttained(order, freq);
    var w :| w in order && freq[w] == MinFrequency(order, freq);
    assert freq[w] in freq.Values;
    forall x | x in freq.Values ensures MinFrequency(order, freq) <= x {
      var k :| k in freq && freq[k] == x;
      assert k in order;
    }
  }

  /** When some key has frequency `m`, the first key of the filtered list is
      the earliest such key of the order: every key before it has another
      frequency. */
  lemma {:induction false} KeysWithFrequencyFirst<K>(order: seq<K>, freq: map<K, nat>, m: nat)
    requires forall k :: k in order ==> k in freq
    requires exists k :: k in order && freq[k] == m
    ensures |KeysWithFrequency(order, freq, m)| > 0
    ensures var v := KeysWithFrequency(order, freq, m)[0];
            v in order && freq[v] == m && forall i :: 0 <= i < IndexOf(order, v) ==> freq[order[i]] != m
  {
    var init := order[..|order| - 1];
    assert order == init + [Last(order)];
    if exists k :: k in init && freq[k] == m {
      KeysWithFrequencyFirst(init, freq, m);
      var v := KeysWithFrequency(init, freq, m)[0];
      assert KeysWithFrequency(order, freq, m)[0] == v;
      assert IndexOf(order, v) == IndexOf(init, v) by {
        IndexOfPrefix(init, [Last(order)], v);
      }
      forall i | 0 <= i < IndexOf(order, v) ensures freq[order[i]] != m {
        assert order[i] == init[i];
      }
    } else {
      var v := Last(order);
      assert freq[v] == m;
      forall i | 0 <= i < IndexOf(order, v) ensures freq[order[i]] != m {
        assert order[i] in init;
      }
    }
  }

  /** The first occurrence in `a + b` of an element of `a` is its first occurrence in `a`. */
  lemma IndexOfPrefix<K>(a: seq<K>, b: seq<K>, x: K)
    requires x in a
    ensures IndexOf(a + b, x) == IndexOf(a, x)
  {
    var i := IndexOf(a, x);
    assert (a + b)[i] == x && (a + b)[..i] == a[..i];
    IndexOfUnique(a + b, x, i);
  }

  /** A position holding `x` with no `x` before it is the first occurrence. */
  lemma IndexOfUnique<K>(s: seq<K>, x: K, i: nat)
    requires i < |s| && s[i] == x && x !in s[..i]
    ensures IndexOf(s, x) == i
  {
    var j := IndexOf(s, x);
    assert forall k :: 0 <= k < j ==> s[k] != x by {
      forall k | 0 <= k < j ensures s[k] != x { assert s[k] == s[..j][k]; }
    }
    assert forall k :: 0 <= k < i ==> s[k] != x by {
      forall k | 0 <= k < i ensures s[k] != x { assert s[k] == s[..i][k]; }
    }
  }

  /** The victim has the minimum frequency of all cached keys and, among the
      keys with that frequency, comes first in `usage_order`: it is the least
      recently used of the least frequently used. */
  lemma VictimIsLeastFrequentThenLeastRecent<K>(order: seq<K>, freq: map<K, nat>)
    requires |order| > 0 && forall k :: k in order ==> k in freq
    ensures var v := Victim(order, freq);
      && v in order
      && (forall k :: k in order ==> freq[v] <= freq[k])
      && (forall i :: 0 <= i < IndexOf(order, v) ==> freq[order[i]] > freq[v])
  {
    var m := MinFrequency(order, freq);
    MinFrequencyAttained(order, freq);
    KeysWithFrequencyFirst(order, freq, m);
    var v := Victim(order, freq);
    forall i | 0 <= i < IndexOf(order, v) ensures freq[order[i]] > freq[v] {
      assert order[i] in order;
    }
  }

  /** `put(key, item)`: the new state and the key announced by DISCARD, if any.
      An existing key is updated, counted and moved to the end; a new key
      first makes room when `len(cache_data) >= MAX_ITEMS`, then enters with
      frequency 1 at the end of the order. */
  function PutStep<K(==), V>(s: State<K, V>, maxItems: nat, key: Option<K>, item: Option<V>)
    : (r: (State<K, V>, Option<K>))
    requires maxItems >= 1 && Consistent(s, maxItems)
    ensures key.None? || item.None? ==> r == (s, None)
  {
    if key.None? || item.None? then (s, None)
    else
      var k := key.value;
      if k in s.cacheData then (UpdateStep(s, k, item.value), None)
      else
        var made := MakeRoom(s, maxItems);
        (InsertStep(made.0, k, item.value), made.1)
  }

  /** Put of a cached key: the new value, one more use, moved to the end. */
  function UpdateStep<K(==), V>(s: State<K, V>, k: K, v: V): State<K, V>
    requires k in s.usageFrequency && k in s.usageOrder
  {
    State(s.cacheData[k := v], s.usageFrequency[k := s.usageFrequency[k] + 1], RemoveFirst(s.usageOrder, k) + [k])
  }

  /** Put of a new key once there is room: frequency 1, at the end of the order. */
  function InsertStep<K(==), V>(s: State<K, V>, k: K, v: V): State<K, V> {
    State(s.cacheData[k := v], s.usageFrequency[k := 1], s.usageOrder + [k])
  }

  /** The eviction a put of a new key performs first: when the cache is full,
      the victim leaves all three fields. */
  function MakeRoom<K(==), V>(s: State<K, V>, maxItems: nat): (r: (State<K, V>, Option<K>))
    requires maxItems >= 1 && Consistent(s, maxItems)
    ensures r.1.None? <==> |s.cacheData| < maxItems
    ensures r.1.None? ==> r.0 == s
  {
    if |s.cacheData| >= maxItems then
      var lfuKey := Victim(s.usageOrder, s.usageFrequency);
      (State(s.cacheData - {lfuKey}, s.usageFrequency - {lfuKey}, RemoveFirst(s.usageOrder, lfuKey)),
       Some(lfuKey))
    else (s, None)
  }

  /** `get(key)`: on a hit the key is counted and moved to the end. */
  function GetStep<K(==), V>(s: State<K, V>, key: Option<K>): (r: (State<K, V>, Option<V>))
    requires Tracked(s)
    ensures r.1.Some? <==> key.Some? && key.value in s.cacheData
    ensures r.1.Some? ==> r.1.value == s.cacheData[key.value]
    // a None or absent key changes neither frequencies nor order
    ensures r.1.None? ==> r.0 == s
  {
    if key.None? || key.value !in s.cacheData then (s, None)
    else
      var k := key.value;
      (State(s.cacheData, s.usageFrequency[k := s.usageFrequency[k] + 1], RemoveFirst(s.usageOrder, k) + [k]),
       Some(s.cacheData[k]))
  }

  /** The three fields stay in agreement and the bound holds after every put. */
  lemma PutStepConsistent<K, V>(s: State<K, V>, maxItems: nat, key: Option<K>, item: Option<V>)
    requires maxItems >= 1 && Consistent(s, maxItems)
    ensures Consistent(PutStep(s, maxItems, key, item).0, maxItems)
  {
    if key.Some? && item.Some? {
      var k := key.value;
      if k in s.cacheData {
        UpdateTracked(s, k, item.value);
      } else {
        MakeRoomTracked(s, maxItems);
        InsertTracked(MakeRoom(s, maxItems).0, k, item.value);
      }
    }
  }

  /** A get keeps the three fields in agreement and the values unchanged. */
  lemma GetStepConsistent<K, V>(s: State<K, V>, maxItems: nat, key: Option<K>)
    requires Consistent(s, maxItems)
    ensures Consistent(GetStep(s, key).0, maxItems)
    ensures GetStep(s, key).0.cacheData == s.cacheData
  {
    if key.Some? && key.value in s.cacheData {
      var k := key.value;
      assert GetStep(s, key).0 == UpdateStep(s, k, s.cacheData[k]) by {
        assert s.cacheData[k := s.cacheData[k]] == s.cacheData;
      }
      UpdateTracked(s, k, s.cacheData[k]);
    }
  }

  /** Counting and moving a cached key to the end keeps the fields in agreement. */
  lemma UpdateTracked<K, V>(s: State<K, V>, k: K, v: V)
    requires Tracked(s) && k in s.cacheData
    ensures Tracked(UpdateStep(s, k, v)) && |UpdateStep(s, k, v).cacheData| == |s.cacheData|
  {
    ListsMoveToEnd(s.usageOrder, s.cacheData, k, v);
    assert s.usageFrequency[k := s.usageFrequency[k] + 1].Keys == s.cacheData[k := v].Keys;
  }

  /** Deleting one cached key from all three fields keeps them in agreement. */
  lemma RemoveTracked<K, V>(s: State<K, V>, d: K)
    requires Tracked(s) && d in s.cacheData
    ensures Tracked(State(s.cacheData - {d}, s.usageFrequency - {d}, RemoveFirst(s.usageOrder, d)))
    ensures |s.cacheData - {d}| == |s.cacheData| - 1
  {
    ListsRemoveAt(s.usageOrder, s.cacheData, IndexOf(s.usageOrder, d));
    assert (s.usageFrequency - {d}).Keys == (s.cacheData - {d}).Keys;
  }

  /** Making room keeps the fields in agreement and leaves the cache below its bound. */
  lemma MakeRoomTracked<K, V>(s: State<K, V>, maxItems: nat)
    requires maxItems >= 1 && Consistent(s, maxItems)
    ensures Tracked(MakeRoom(s, maxItems).0) && |MakeRoom(s, maxItems).0.cacheData| < maxItems
  {
    if |s.cacheData| >= maxItems {
      RemoveTracked(s, Victim(s.usageOrder, s.usageFrequency));
    }
  }

  /** Adding a new key with frequency 1 at the end keeps the fields in agreement. */
  lemma InsertTracked<K, V>(s: State<K, V>, k: K, v: V)
    requires Tracked(s) && k !in s.cacheData
    ensures Tracked(InsertStep(s, k, v))
    ensures |InsertStep(s, k, v).cacheData| == |s.cacheData| + 1
  {
    AppendNoDup(s.usageOrder, k);
  }

  /** Re-putting a cached key and a successful get each add one to its
      frequency and move it to the end of the recency order. */
  lemma AccessCountsAndRefreshes<K, V>(s: State<K, V>, maxItems: nat, k: K, v: V)
    requires maxItems >= 1 && Consistent(s, maxItems) && k in s.cacheData
    ensures var (r, discarded) := PutStep(s, maxItems, Some(k), Some(v));
      && discarded == None && r.cacheData == s.cacheData[k := v]
      && r.usageFrequency[k] == s.usageFrequency[k] + 1
      && r.usageOrder == RemoveFirst(s.usageOrder, k) + [k]
    ensures var (g, got) := GetStep(s, Some(k));
      && got == Some(s.cacheData[k]) && g.cacheData == s.cacheData
      && g.usageFrequency[k] == s.usageFrequency[k] + 1
      && g.usageOrder == RemoveFirst(s.usageOrder, k) + [k]
  {
  }

  /** A new key evicts exactly when `len(cache_data) >= MAX_ITEMS` before the
      insertion. The victim is the least frequently used key, the least
      recently used among ties, and is never the incoming key, which enters
      with frequency 1 at the end of the order. */
  lemma NewKeyEviction<K, V>(s: State<K, V>, maxItems: nat, k: K, v: V)
    requires maxItems >= 1 && Consistent(s, maxItems) && k !in s.cacheData
    ensures var (r, discarded) := PutStep(s, maxItems, Some(k), Some(v));
      && k in r.cacheData && r.cacheData[k] == v
      && k in r.usageFrequency && r.usageFrequency[k] == 1
      && |r.usageOrder| > 0 && Last(r.usageOrder) == k
      && (discarded.Some? <==> |s.cacheData| == maxItems)
      && (discarded.None? ==> r.cacheData == s.cacheData[k := v] && r.usageOrder == s.usageOrder + [k])
      && (discarded.Some? ==>
            var d := discarded.value;
            && d != k && d in s.cacheData && d !in r.cacheData
            && (forall x :: x in s.cacheData ==> s.usageFrequency[d] <= s.usageFrequency[x])
            && (forall i :: 0 <= i < IndexOf(s.usageOrder, d) ==>
                  s.usageFrequency[s.usageOrder[i]] > s.usageFrequency[d])
            && r.cacheData == (s.cacheData - {d})[k := v])
  {
    if |s.cacheData| >= maxItems {
      VictimIsLeastFrequentThenLeastRecent(s.usageOrder, s.usageFrequency);
    }
  }

  class LFUCache<K(==), V> {
    const maxItems: nat
    var cacheData: map<K, V>
    var usageFrequency: map<K, nat>
    var usageOrder: seq<K>

    ghost function Snapshot(): State<K, V>
      reads this
    {
      State(cacheData, usageFrequency, usageOrder)
    }

    ghost predicate Valid()
      reads this
    {
      maxItems >= 1 && Consistent(Snapshot(), maxItems)
    }

    constructor (maxItems: nat)
      requires maxItems >= 1
      ensures Valid() && this.maxItems == maxItems
      ensures cacheData == map[] && usageFrequency == map[] && usageOrder == []
    {
      this.maxItems := maxItems;
      cacheData := map[];
      usageFrequency := map[];
      usageOrder := [];
    }

    method Put(key: Option<K>, item: Option<V>) returns (discarded: Option<K>)
      requires Valid()
      modifies this
      ensures Valid()
      ensures (Snapshot(), discarded) == PutStep(old(Snapshot()), maxItems, key, item)
    {
      ghost var before := Snapshot();
      discarded := None;
      if key.None? || item.None? {
        return;
      }
      var k := key.value;
      if k in cacheData {
        cacheData := cacheData[k := item.value];
        Touch(k);
        assert Snapshot() == UpdateStep(before, k, item.value);
        UpdateTracked(before, k, item.value);
      } else {
        discarded := Insert(k, item.value);
        MakeRoomTracked(before, maxItems);
        InsertTracked(MakeRoom(before, maxItems).0, k, item.value);
      }
    }

    /** The new-key branch of put: make room when full, then insert. */
    method Insert(k: K, v: V) returns (discarded: Option<K>)
      requires Valid() && k !in cacheData
      modifies this
      ensures (Snapshot(), discarded) == (InsertStep(MakeRoom(old(Snapshot()), maxItems).0, k, v), MakeRoom(old(Snapshot()), maxItems).1)
    {
      ghost var before := Snapshot();
      var data, freq, order := cacheData, usageFrequency, usageOrder;
      discarded := None;
      if |data| >= maxItems {
        assert forall x :: x in order ==> x in freq;
        assert forall x :: x in freq ==> x in order;
        var lfuKey := LeastFrequentlyUsed(freq, order);
        data, freq, order := data - {lfuKey}, freq - {lfuKey}, RemoveFirst(order, lfuKey);
        discarded := Some(lfuKey);
      }
      assert (State(data, freq, order), discarded) == MakeRoom(before, maxItems);
      cacheData, usageFrequency, usageOrder := data[k := v], freq[k := 1], order + [k];
    }

    /** The bookkeeping put and get share for a cached key: one more use,
        and the key moves to the end of the recency order. */
    method Touch(k: K)
      requires k in usageFrequency && k in usageOrder
      modifies this
      ensures cacheData == old(cacheData)
      ensures usageFrequency == old(usageFrequency)[k := old(usageFrequency)[k] + 1]
      ensures usageOrder == RemoveFirst(old(usageOrder), k) + [k]
    {
      usageFrequency := usageFrequency[k := usageFrequency[k] + 1];
      usageOrder := RemoveFirst(usageOrder, k);
      usageOrder := usageOrder + [k];
    }

    method Get(key: Option<K>) returns (r: Option<V>)
      requires Valid()
      modifies this
      ensures Valid()
      ensures (Snapshot(), r) == GetStep(old(Snapshot()), key)
    {
      ghost var before := Snapshot();
      GetStepConsistent(before, maxItems, key);
      if key.None? || key.value !in cacheData {
        return None;
      }
      var k := key.value;
      r := Some(cacheData[k]);
      ghost var touched := State(cacheData, usageFrequency[k := usageFrequency[k] + 1], RemoveFirst(usageOrder, k) + [k]);
      assert GetStep(before, key) == (touched, r);
      Touch(k);
      assert Snapshot() == touched;
    }
  }

  /** The victim search of put: `min` over the frequency values, then the
      first key of `usage_order` with that frequency. `min` is over a
      non-empty dict because the cache is full and `MAX_ITEMS >= 1`. */
  method LeastFrequentlyUsed<K(==)>(usageFrequency: map<K, nat>, usageOrder: seq<K>) returns (lfuKey: K)
    requires |usageOrder| > 0
    requires forall k :: k in usageOrder ==> k in usageFrequency
    requires forall k :: k in usageFrequency ==> k in usageOrder
    ensures lfuKey == Victim(usageOrder, usageFrequency)
    ensures lfuKey in usageOrder
    ensures forall k :: k in usageFrequency ==> usageFrequency[lfuKey] <= usageFrequency[k]
  {
    var minFreq := MinOfValues(usageFrequency, usageOrder);
    var lfuKeys := KeysWith(usageOrder, usageFrequency, minFreq);
    MinFrequencyAttained(usageOrder, usageFrequency);
    KeysWithFrequencyFirst(usageOrder, usageFrequency, minFreq);
    lfuKey := lfuKeys[0];
    VictimIsLeastFrequentThenLeastRecent(usageOrder, usageFrequency);
  }

  /** `min(usage_frequency.values())`, by a loop over the set of values. */
  method MinOfValues<K(==)>(usageFrequency: map<K, nat>, usageOrder: seq<K>) returns (minFreq: nat)
    requires |usageOrder| > 0
    requires forall k :: k in usageOrder ==> k in usageFrequency
    requires forall k :: k in usageFrequency ==> k in usageOrder
    ensures minFreq == MinFrequency(usageOrder, usageFrequency)
  {
    var values := usageFrequency.Values;
    assert usageFrequency[usageOrder[0]] in values;
    minFreq :| minFreq in values;
    var rest := values - {minFreq};
    while rest != {}
      invariant rest <= values && minFreq in values
      invariant forall x :: x in values && x !in rest ==> minFreq <= x
      decreases rest
    {
      var x :| x in rest;
      if x < minFreq {
        minFreq := x;
      }
      rest := rest - {x};
    }
    MinFrequencyOfValues(usageOrder, usageFrequency);
  }

  /** `[k for k in usage_order if usage_frequency[k] == min_freq]`, by a loop. */
  method KeysWith<K(==)>(usageOrder: seq<K>, usageFrequency: map<K, nat>, m: nat) returns (keys: seq<K>)
    requires forall k :: k in usageOrder ==> k in usageFrequency
    ensures keys == KeysWithFrequency(usageOrder, usageFrequency, m)
  {
    keys := [];
    var i := 0;
    while i < |usageOrder|
      invariant 0 <= i <= |usageOrder|
      invariant keys == KeysWithFrequency(usageOrder[..i], usageFrequency, m)
    {
      assert usageOrder[..i + 1][..i] == usageOrder[..i];
      if usageFrequency[usageOrder[i]] == m {
        keys := keys + [usageOrder[i]];
      }
      i := i + 1;
    }
    assert usageOrder[..i] == usageOrder;
  }
}
