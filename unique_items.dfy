/** `updateUniqueItems(map)` (ES6_data_manipulation/10-update_uniq_items.js):
    rewrites, in place, every entry of the caller's Map whose value is 1 to
    100, and returns that same Map. */
module UniqueItems {
  import opened Wrappers
  import opened Seqs

  const NotAMapError: string := "Cannot process"

  /** A JavaScript Map whose values are numbers: the keys in insertion
      order and the entries. */
  class JsMap<K(==)> {
    var keys: seq<K>
    var entries: map<K, int>

    ghost predicate Valid()
      reads this
    {
      Lists(keys, entries)
    }

    constructor (keys: seq<K>, entries: map<K, int>)
      requires Lists(keys, entries)
      ensures this.keys == keys && this.entries == entries && Valid()
    {
      this.keys := keys;
      this.entries := entries;
    }

    /** `map.set(k, v)`: an existing key keeps its place in the order, a new
        key goes last. */
    method Set(k: K, v: int)
      requires Valid()
      modifies this
      ensures Valid()
      ensures entries == old(entries)[k := v]
      ensures keys == if k in old(entries) then old(keys) else old(keys) + [k]
    {
      if k in entries {
        ListsUpdate(keys, entries, k, v);
      } else {
        ListsAppend(keys, entries, k, v);
        keys := keys + [k];
      }
      entries := entries[k := v];
    }
  }

  /** The new value of one entry. */
  function Promote(v: int): int {
    if v == 1 then 100 else v
  }

  /** The entries after the rewrite: every 1 becomes 100, every other value
      and every key stays. */
  function Promoted<K>(entries: map<K, int>): (r: map<K, int>)
    ensures r.Keys == entries.Keys
    ensures forall k :: k in entries && entries[k] == 1 ==> r[k] == 100
    ensures forall k :: k in entries && entries[k] != 1 ==> r[k] == entries[k]
  {
    map k | k in entries :: Promote(entries[k])
  }

  /** No 1 is left afterwards, so a second call changes nothing. */
  lemma PromotedIdempotent<K>(entries: map<K, int>)
    ensures forall k :: k in Promoted(entries) ==> Promoted(entries)[k] != 1
    ensures Promoted(Promoted(entries)) == Promoted(entries)
  {
  }

  /** A missing Map (anything that is not a Map instance) throws; otherwise
      the same Map comes back with its keys in the same order and its
      entries promoted. */
  method UpdateUniqueItems<K(==)>(m: JsMap?<K>) returns (r: Outcome<JsMap<K>>)
    requires m != null ==> m.Valid()
    modifies m
    ensures r.Throw? <==> m == null
    ensures r.Throw? ==> r.message == NotAMapError
    ensures r.Return? ==> r.value == m && m.Valid()
    ensures r.Return? ==> m.keys == old(m.keys) && m.entries == Promoted(old(m.entries))
  {
    if m == null {
      return Throw(NotAMapError);
    }
    ghost var original := m.entries;
    var i := 0;
    while i < |m.keys|
      invariant 0 <= i <= |m.keys|
      invariant m.Valid() && m.keys == old(m.keys)
      invariant PromotedUpTo(m.entries, original, m.keys[..i])
    {
      var key := m.keys[i];
      PromoteStep(m.entries, original, m.keys, i);
      if m.entries[key] == 1 {
        m.Set(key, 100);
      }
      i := i + 1;
    }
    PromotedAll(m.entries, original, m.keys);
    return Return(m);
  }

  /** `cur` is `original` with the values of the keys of `done` rewritten. */
  ghost predicate PromotedUpTo<K>(cur: map<K, int>, original: map<K, int>, done: seq<K>) {
    && cur.Keys == original.Keys
    && forall k :: k in cur ==> cur[k] == if k in done then Promote(original[k]) else original[k]
  }

  /** One turn of the loop: the next key's value is rewritten when it is 1. */
  lemma PromoteStep<K>(cur: map<K, int>, original: map<K, int>, keys: seq<K>, i: nat)
    requires i < |keys| && NoDup(keys) && keys[i] in cur
    requires PromotedUpTo(cur, original, keys[..i])
    ensures cur[keys[i]] == 1 ==> PromotedUpTo(cur[keys[i] := 100], original, keys[..i + 1])
    ensures cur[keys[i]] != 1 ==> PromotedUpTo(cur, original, keys[..i + 1])
  {
    var key := keys[i];
    assert keys[..i + 1] == keys[..i] + [key];
    assert key !in keys[..i] by {
      assert forall j :: 0 <= j < i ==> keys[j] != keys[i];
    }
  }

  /** Once every key is done, the entries are the promoted ones. */
  lemma PromotedAll<K>(cur: map<K, int>, original: map<K, int>, keys: seq<K>)
    requires Lists(keys, cur) && PromotedUpTo(cur, original, keys[..|keys|])
    ensures cur == Promoted(original)
  {
    assert keys[..|keys|] == keys;
  }
}
