/** Plain JavaScript objects used as dictionaries, and the order in which
    `Object.keys`, `Object.values` and `Object.entries` list their own
    properties (OrdinaryOwnPropertyKeys, section 10.1.11.1 of ECMA-262):
    array-index keys first, in ascending numeric order, then the other
    string keys in the order they were created. */
module JsObjects {
  import opened Strings
  import opened Seqs

  /** A canonical array index: "0" or decimal digits without a leading zero,
      denoting a number below 2^32 - 1 (section 6.1.7 of ECMA-262). */
  predicate IsArrayIndex(key: string) {
    && |key| > 0
    && (forall i :: 0 <= i < |key| ==> IsDigit(key[i]))
    && (key[0] != '0' || |key| == 1)
    && DigitsValue(key) < 0xFFFF_FFFF
  }

  /** The index keys, in creation order. */
  function IndexKeys(keys: seq<string>): (r: seq<string>)
    ensures forall k :: k in r ==> IsArrayIndex(k)
  {
    if |keys| == 0 then []
    else if IsArrayIndex(keys[0]) then [keys[0]] + IndexKeys(keys[1..])
    else IndexKeys(keys[1..])
  }

  /** The other keys, in creation order. */
  function NamedKeys(keys: seq<string>): (r: seq<string>)
    ensures forall k :: k in r ==> !IsArrayIndex(k)
  {
    if |keys| == 0 then []
    else if IsArrayIndex(keys[0]) then NamedKeys(keys[1..])
    else [keys[0]] + NamedKeys(keys[1..])
  }

  lemma {:induction false} SplitKeysMultiset(keys: seq<string>)
    ensures multiset(IndexKeys(keys)) + multiset(NamedKeys(keys)) == multiset(keys)
  {
    if |keys| > 0 {
      SplitKeysMultiset(keys[1..]);
      assert keys == [keys[0]] + keys[1..];
    }
  }

  predicate AscendingByIndex(s: seq<string>) {
    forall i, j :: 0 <= i < j < |s| ==> DigitsValue(s[i]) <= DigitsValue(s[j])
  }

  /** Insertion of one key into keys already in ascending order. */
  function InsertByIndex(k: string, sorted: seq<string>): (r: seq<string>)
    ensures multiset(r) == multiset(sorted) + multiset{k}
    ensures r[0] == k || (|sorted| > 0 && r[0] == sorted[0])
  {
    if |sorted| == 0 then [k]
    else if DigitsValue(k) <= DigitsValue(sorted[0]) then [k] + sorted
    else
      assert sorted == [sorted[0]] + sorted[1..];
      [sorted[0]] + InsertByIndex(k, sorted[1..])
  }

  lemma {:induction false} InsertByIndexAscending(k: string, sorted: seq<string>)
    requires AscendingByIndex(sorted)
    ensures AscendingByIndex(InsertByIndex(k, sorted))
  {
    if |sorted| > 0 && DigitsValue(k) > DigitsValue(sorted[0]) {
      var rest := InsertByIndex(k, sorted[1..]);
      InsertByIndexAscending(k, sorted[1..]);
      var r := [sorted[0]] + rest;
      assert DigitsValue(sorted[0]) <= DigitsValue(rest[0]) by {
        if rest[0] != k {
          assert rest[0] == sorted[1];
        }
      }
      forall i, j | 0 <= i < j < |r| ensures DigitsValue(r[i]) <= DigitsValue(r[j]) {
        if i == 0 {
          assert r[j] == rest[j - 1];
          if j > 1 {
            assert DigitsValue(rest[0]) <= DigitsValue(rest[j - 1]);
          }
        } else {
          assert r[i] == rest[i - 1] && r[j] == rest[j - 1];
        }
      }
    }
  }

  function SortByIndex(keys: seq<string>): (r: seq<string>)
    ensures multiset(r) == multiset(keys)
  {
    if |keys| == 0 then []
    else
      assert keys == [keys[0]] + keys[1..];
      InsertByIndex(keys[0], SortByIndex(keys[1..]))
  }

  lemma {:induction false} SortByIndexAscending(keys: seq<string>)
    ensures AscendingByIndex(SortByIndex(keys))
  {
    if |keys| > 0 {
      SortByIndexAscending(keys[1..]);
      InsertByIndexAscending(keys[0], SortByIndex(keys[1..]));
    }
  }

  /** The order in which an object's own keys are listed, given the order
      in which they were created. */
  function OwnKeys(keys: seq<string>): (r: seq<string>)
    ensures multiset(r) == multiset(keys)
    ensures |r| == |keys| && forall k :: k in r <==> k in keys
  {
    SplitKeysMultiset(keys);
    var r := SortByIndex(IndexKeys(keys)) + NamedKeys(keys);
    assert |r| == |keys| by {
      assert |multiset(r)| == |multiset(keys)|;
    }
    assert forall k :: k in r <==> k in keys by {
      forall k ensures k in r <==> k in multiset(r) && (k in keys <==> k in multiset(keys)) {
      }
    }
    r
  }

  /** The listing puts every index key before every other key, index
      keys in ascending numeric order, and keeps the creation order of the
      other keys (it is a permutation of the keys by `OwnKeys`'s contract). */
  lemma OwnKeysOrder(keys: seq<string>)
    ensures var r := OwnKeys(keys); var n := |IndexKeys(keys)|;
      && n <= |r|
      && (forall i :: 0 <= i < n ==> IsArrayIndex(r[i]))
      && AscendingByIndex(r[..n])
      && r[n..] == NamedKeys(keys)
  {
    var a := SortByIndex(IndexKeys(keys));
    var r := OwnKeys(keys);
    SortByIndexAscending(IndexKeys(keys));
    assert |a| == |IndexKeys(keys)| by {
      assert |multiset(a)| == |multiset(IndexKeys(keys))|;
    }
    forall i | 0 <= i < |a| ensures IsArrayIndex(r[i]) {
      assert r[i] == a[i];
      assert a[i] in multiset(IndexKeys(keys));
    }
    assert r[..|a|] == a;
    assert r[|a|..] == NamedKeys(keys);
  }

  /** An object without index keys lists its keys in creation order. */
  lemma OwnKeysWithoutIndexKeys(keys: seq<string>)
    requires forall k :: k in keys ==> !IsArrayIndex(k)
    ensures OwnKeys(keys) == keys
  {
    NoIndexKeys(keys);
  }

  lemma {:induction false} NoIndexKeys(keys: seq<string>)
    requires forall k :: k in keys ==> !IsArrayIndex(k)
    ensures IndexKeys(keys) == [] && NamedKeys(keys) == keys
  {
    if |keys| > 0 {
      NoIndexKeys(keys[1..]);
    }
  }

  /** A plain object used as a dictionary: its own keys in creation order,
      and the value of each. */
  datatype JsObject<V> = JsObject(keys: seq<string>, props: map<string, V>)

  /** The values stored under `order`, in that order. */
  function PropsAt<V>(order: seq<string>, props: map<string, V>): (r: seq<V>)
    requires forall k :: k in order ==> k in props
    ensures |r| == |order|
    ensures forall i :: 0 <= i < |r| ==> r[i] == props[order[i]]
  {
    if |order| == 0 then [] else [props[order[0]]] + PropsAt(order[1..], props)
  }

  /** `Object.values(o)`. */
  function Values<V>(o: JsObject<V>): (r: seq<V>)
    requires forall k :: k in o.keys ==> k in o.props
    ensures |r| == |o.keys|
    ensures forall i :: 0 <= i < |r| ==> r[i] == o.props[OwnKeys(o.keys)[i]]
  {
    PropsAt(OwnKeys(o.keys), o.props)
  }
}
