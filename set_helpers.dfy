/** The Set helpers of ES6_data_manipulation: `hasValuesFromArray`
    (7-has_array_values.js) and `cleanSet` (8-clean_set.js). A Set that is
    only asked `has` is a Dafny set; a Set that is iterated is the sequence
    of its values in insertion order. */
module SetHelpers {
  import opened Wrappers
  import opened Strings

  // ---- hasValuesFromArray ----

  /** `array.every((value) => set.has(value))`. */
  function HasValuesFromArray<T(==)>(s: set<T>, items: seq<T>): (r: bool)
    ensures r <==> forall i :: 0 <= i < |items| ==> items[i] in s
  {
    if |items| == 0 then true
    else
      assert forall i :: 1 <= i < |items| ==> items[i] == items[1..][i - 1];
      items[0] in s && HasValuesFromArray(s, items[1..])
  }

  /** An empty array gives true, one value outside the set gives false, and
      a true answer stays true for a larger set and for an array whose
      values all come from the first array. */
  lemma HasValuesFromArrayMonotone<T>(s: set<T>, items: seq<T>, bigger: set<T>, fewer: seq<T>, missing: T)
    ensures HasValuesFromArray(s, [])
    ensures missing !in s ==> !HasValuesFromArray(s, items + [missing])
    ensures HasValuesFromArray(s, items) && s <= bigger && (forall v :: v in fewer ==> v in items)
            ==> HasValuesFromArray(bigger, fewer)
  {
    assert (items + [missing])[|items|] == missing;
    if HasValuesFromArray(s, items) && s <= bigger && (forall v :: v in fewer ==> v in items) {
      forall i | 0 <= i < |fewer| ensures fewer[i] in bigger {
        assert fewer[i] in items;
      }
    }
  }

  // ---- cleanSet ----

  /** The `.filter(...).map(...)` chain: for each value that starts with
      `prefix`, the rest of it, in order. */
  function Remainders(values: seq<string>, prefix: string): (r: seq<string>)
    ensures |r| <= |values|
    ensures forall i :: 0 <= i < |r| ==> prefix + r[i] in values
  {
    if |values| == 0 then []
    else
      var rest := Remainders(values[1..], prefix);
      assert forall i :: 0 <= i < |rest| ==> prefix + rest[i] in values by {
        assert forall v :: v in values[1..] ==> v in values;
      }
      if StartsWith(values[0], prefix) then
        assert prefix + values[0][|prefix|..] == values[0];
        [values[0][|prefix|..]] + rest
      else rest
  }

  /** Every value that starts with the prefix contributes its remainder
      (the empty string for a value equal to the prefix). */
  lemma {:induction false} RemaindersComplete(values: seq<string>, prefix: string, v: string)
    requires v in values && StartsWith(v, prefix)
    ensures v[|prefix|..] in Remainders(values, prefix)
  {
    if values[0] != v {
      RemaindersComplete(values[1..], prefix, v);
    }
  }

  /** Contributions keep the order of the values. */
  lemma {:induction false} RemaindersAppend(a: seq<string>, b: seq<string>, prefix: string)
    ensures Remainders(a + b, prefix) == Remainders(a, prefix) + Remainders(b, prefix)
  {
    if |a| == 0 {
      assert a + b == b;
    } else {
      assert (a + b)[1..] == a[1..] + b;
      RemaindersAppend(a[1..], b, prefix);
    }
  }

  /** `cleanSet(set, startString)`: '' for a missing, empty or non-string
      `startString`, otherwise the remainders joined by '-'. */
  function CleanSet(values: seq<string>, startString: Dynamic): (r: string)
    ensures !startString.Text? || startString.s == "" ==> r == ""
  {
    if !startString.Text? || startString.s == "" then ""
    else Join("-", Remainders(values, startString.s))
  }

  /** No matching value gives '', and a single match gives its remainder. */
  lemma CleanSetNoMatch(values: seq<string>, p: string)
    requires p != ""
    ensures (forall v :: v in values ==> !StartsWith(v, p)) ==> CleanSet(values, Text(p)) == ""
    ensures |Remainders(values, p)| == 1 ==> CleanSet(values, Text(p)) == Remainders(values, p)[0]
  {
    if forall v :: v in values ==> !StartsWith(v, p) {
      var r := Remainders(values, p);
      if |r| > 0 {
        assert p + r[0] in values;
        assert (p + r[0])[..|p|] == p;
      }
    }
  }
}
