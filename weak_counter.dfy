/** `queryAPI(endpoint)` with the module-level `weakMap`
    (ES6_data_manipulation/100-weak.js): counts the queries per endpoint
    object and refuses from the fifth one on. Keys are objects compared by
    identity, as in a WeakMap; the module-level map is one counter object. */
module WeakCounter {
  import opened Wrappers

  /** The count from which a query throws. */
  const LoadLimit: nat := 5

  const LoadError: string := "Endpoint load is high"

  /** `weakMap.get(endpoint) || 0`: 0 for an endpoint never queried. */
  function Count<E>(counts: map<E, nat>, endpoint: E): nat {
    if endpoint in counts then counts[endpoint] else 0
  }

  /** One call: the new counts and whether it threw. The increment is
      stored before the check. */
  function QueryStep<E>(counts: map<E, nat>, endpoint: E): (r: (map<E, nat>, Outcome<()>))
    ensures Count(r.0, endpoint) == Count(counts, endpoint) + 1
    ensures r.0.Keys == counts.Keys + {endpoint}
    ensures forall e :: e in counts && e != endpoint ==> r.0[e] == counts[e]
    ensures r.1.Throw? <==> Count(r.0, endpoint) >= LoadLimit
    ensures r.1.Throw? ==> r.1.message == LoadError
  {
    var count := Count(counts, endpoint) + 1;
    (counts[endpoint := count], if count >= LoadLimit then Throw(LoadError) else Return(()))
  }

  /** `n` calls for the same endpoint, one after the other: the counts
      afterwards and the outcome of each call. */
  function Queries<E>(counts: map<E, nat>, endpoint: E, n: nat): (map<E, nat>, seq<Outcome<()>>) {
    if n == 0 then (counts, [])
    else
      var (before, outcomes) := Queries(counts, endpoint, n - 1);
      var (after, outcome) := QueryStep(before, endpoint);
      (after, outcomes + [outcome])
  }

  /** From a fresh map, `n` calls leave the count at `n` and other
      endpoints at 0; calls one to four succeed and the fifth and every
      later one throw. */
  lemma {:induction false} QueriesFromFresh<E>(endpoint: E, other: E, n: nat)
    requires other != endpoint
    ensures var (counts, outcomes) := Queries(map[], endpoint, n);
      && Count(counts, endpoint) == n && Count(counts, other) == 0
      && |outcomes| == n
      && forall j :: 0 <= j < n ==> (outcomes[j].Throw? <==> j + 1 >= LoadLimit)
  {
    if n > 0 {
      QueriesFromFresh(endpoint, other, n - 1);
      var (before, outcomes) := Queries(map[], endpoint, n - 1);
      assert Queries(map[], endpoint, n).1[..n - 1] == outcomes;
    }
  }

  /** The module-level `weakMap`. */
  class QueryCounter {
    var counts: map<object, nat>

    constructor ()
      ensures counts == map[]
    {
      counts := map[];
    }

    method QueryAPI(endpoint: object) returns (r: Outcome<()>)
      modifies this
      ensures (counts, r) == QueryStep(old(counts), endpoint)
    {
      var count := Count(counts, endpoint);
      count := count + 1;
      counts := counts[endpoint := count];
      if count >= LoadLimit {
        return Throw(LoadError);
      }
      return Return(());
    }
  }
}
