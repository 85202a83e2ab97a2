/** Facts about sequences and maps used by the key-order lists of the caches:
    Python's `list.remove`, `list.pop(i)` and `del d[k]`. */
module Seqs {

  /** Every element occurs at most once. */
  predicate NoDup<T(==)>(s: seq<T>) {
    forall i, j :: 0 <= i < j < |s| ==> s[i] != s[j]
  }

  function Last<T>(s: seq<T>): T
    requires |s| > 0
  {
    s[|s| - 1]
  }

  /** The position of the first occurrence of `x`. */
  function IndexOf<T(==)>(s: seq<T>, x: T): (i: nat)
    requires x in s
    ensures i < |s| && s[i] == x && x !in s[..i]
  {
    if s[0] == x then 0
    else
      var j := IndexOf(s[1..], x);
      assert s[..j + 1] == [s[0]] + s[1..][..j];
      j + 1
  }

  /** `list.pop(i)` as the list it leaves behind. */
  function RemoveAt<T>(s: seq<T>, i: nat): (r: seq<T>)
    requires i < |s|
    ensures |r| == |s| - 1
    ensures forall j :: 0 <= j < i ==> r[j] == s[j]
    ensures forall j :: i <= j < |r| ==> r[j] == s[j + 1]
  {
    s[..i] + s[i + 1..]
  }

  /** `list.remove(x)`: drops the first occurrence; Python raises ValueError
      when `x` is absent, which callers here never allow. */
  function RemoveFirst<T(==)>(s: seq<T>, x: T): (r: seq<T>)
    requires x in s
    ensures |r| == |s| - 1
  {
    RemoveAt(s, IndexOf(s, x))
  }

  /** `remove(x)` takes away exactly one occurrence of `x` and nothing else. */
  lemma RemoveFirstMultiset<T>(s: seq<T>, x: T)
    requires x in s
    ensures multiset(RemoveFirst(s, x)) == multiset(s) - multiset{x}
  {
    var i := IndexOf(s, x);
    assert s == s[..i] + [x] + s[i + 1..];
  }

  /** Removing position `i` removes one occurrence of `s[i]`. */
  lemma RemoveAtMultiset<T>(s: seq<T>, i: nat)
    requires i < |s|
    ensures multiset(s) == multiset(RemoveAt(s, i)) + multiset{s[i]}
  {
    assert s == s[..i] + [s[i]] + s[i + 1..];
  }

  /** Appending `x` and then removing the element before it replaces the
      last element with `x`. */
  lemma RemoveSecondLast<T>(s: seq<T>, x: T)
    requires |s| > 0
    ensures (s + [x])[|s| - 1] == Last(s)
    ensures RemoveAt(s + [x], |s| - 1) == s[..|s| - 1] + [x]
  {
    assert (s + [x])[..|s| - 1] == s[..|s| - 1];
    assert (s + [x])[|s|..] == [x];
  }

  /** A list is what comes before position `i`, the element there, and
      what comes after. */
  lemma SplitAround<T>(s: seq<T>, i: nat)
    requires i < |s|
    ensures s == s[..i] + ([s[i]] + s[i + 1..])
  {
    assert s[i..] == [s[i]] + s[i + 1..];
    assert s == s[..i] + s[i..];
  }

  /** Two lists that are permutations of each other stay so when the last
      element of one and an occurrence of it in the other are removed. */
  lemma PermutationRemove<T>(a: seq<T>, b: seq<T>, i: nat)
    requires |a| > 0 && i < |b| && b[i] == a[|a| - 1] && multiset(a) == multiset(b)
    ensures multiset(a[..|a| - 1]) == multiset(RemoveAt(b, i))
  {
    var x := a[|a| - 1];
    assert a == a[..|a| - 1] + [x];
    assert multiset(a) == multiset(a[..|a| - 1]) + multiset{x};
    RemoveAtMultiset(b, i);
    assert multiset(a[..|a| - 1]) == multiset(a) - multiset{x};
    assert multiset(RemoveAt(b, i)) == multiset(b) - multiset{x};
  }

  /** Permutations of each other have the same members. */
  lemma PermutationMembers<T>(a: seq<T>, b: seq<T>)
    requires multiset(a) == multiset(b)
    ensures forall x :: x in a <==> x in b
  {
    forall x ensures x in a <==> x in b {
      assert x in a <==> x in multiset(a);
      assert x in b <==> x in multiset(b);
    }
  }

  /** Removing one position from a duplicate-free list removes exactly that
      element and keeps the list duplicate-free. */
  lemma RemoveAtNoDup<T>(s: seq<T>, i: nat)
    requires i < |s| && NoDup(s)
    ensures NoDup(RemoveAt(s, i))
    ensures forall y :: y in RemoveAt(s, i) <==> y in s && y != s[i]
  {
    var r := RemoveAt(s, i);
    forall y | y in s && y != s[i] ensures y in r {
      var j :| 0 <= j < |s| && s[j] == y;
      if j < i { assert r[j] == y; } else { assert r[j - 1] == y; }
    }
  }

  /** In a duplicate-free list `remove(x)` is `pop` at the position of `x`. */
  lemma RemoveFirstNoDup<T>(s: seq<T>, x: T)
    requires x in s && NoDup(s)
    ensures NoDup(RemoveFirst(s, x))
    ensures forall y :: y in RemoveFirst(s, x) <==> y in s && y != x
  {
    RemoveAtNoDup(s, IndexOf(s, x));
  }

  /** Appending an element not yet present keeps the list duplicate-free. */
  lemma AppendNoDup<T>(s: seq<T>, x: T)
    requires NoDup(s) && x !in s
    ensures NoDup(s + [x])
  {
  }

  /** `del d[k]` shrinks the dict by one. */
  lemma RemoveKeyCard<K, V>(m: map<K, V>, k: K)
    requires k in m
    ensures |m - {k}| == |m| - 1
  {
    assert (m - {k}).Keys == m.Keys - {k};
  }

  /** `remove(x)` followed by `append(x)` on a duplicate-free list moves `x`
      to the end and keeps every other element. */
  lemma MoveToEndNoDup<T>(s: seq<T>, x: T)
    requires x in s && NoDup(s)
    ensures var r := RemoveFirst(s, x) + [x];
      NoDup(r) && |r| == |s| && Last(r) == x && (forall y :: y in r <==> y in s)
  {
    RemoveFirstNoDup(s, x);
  }

  /** `order` lists exactly the keys of `m`, each once: the invariant tying
      the caches' key lists to their dicts. */
  ghost predicate Lists<K, V>(order: seq<K>, m: map<K, V>) {
    && NoDup(order)
    && |order| == |m|
    && (forall k :: k in m ==> k in order)
    && (forall k :: k in order ==> k in m)
  }

  /** Overwriting the value of a listed key keeps the listing. */
  lemma ListsUpdate<K, V>(order: seq<K>, m: map<K, V>, k: K, v: V)
    requires Lists(order, m) && k in m
    ensures Lists(order, m[k := v])
  {
    assert m[k := v].Keys == m.Keys;
  }

  /** Storing a new key and appending it keeps the listing. */
  lemma ListsAppend<K, V>(order: seq<K>, m: map<K, V>, k: K, v: V)
    requires Lists(order, m) && k !in m
    ensures Lists(order + [k], m[k := v])
  {
    assert k !in order;
    AppendNoDup(order, k);
    forall y | y in order + [k] ensures y in m[k := v] {
      if y != k { assert y in order; }
    }
  }

  /** Storing a listed key and moving it to the end keeps the listing. */
  lemma ListsMoveToEnd<K, V>(order: seq<K>, m: map<K, V>, k: K, v: V)
    requires Lists(order, m) && k in m
    ensures Lists(RemoveFirst(order, k) + [k], m[k := v])
  {
    var r := RemoveFirst(order, k) + [k];
    MoveToEndNoDup(order, k);
    assert |m[k := v]| == |m|;
    forall y | y in m[k := v] ensures y in r {
      assert y in order;
    }
    forall y | y in r ensures y in m[k := v] {
      assert y in order;
    }
  }

  /** Deleting the key at position `i` from both keeps the listing. */
  lemma ListsRemoveAt<K, V>(order: seq<K>, m: map<K, V>, i: nat)
    requires Lists(order, m) && i < |order|
    ensures Lists(RemoveAt(order, i), m - {order[i]})
    ensures |m - {order[i]}| == |m| - 1
  {
    var d := order[i];
    RemoveAtNoDup(order, i);
    RemoveKeyCard(m, d);
    forall y | y in m - {d} ensures y in RemoveAt(order, i) {
      assert y in order;
    }
  }
}

