/** The duck-typed helpers of python_variable_annotations: `safe_first_element`,
    `safely_get_value` and `zoom_array`. A Python value that may be None is
    an `Option`. */
module Annotations {
  import opened Wrappers

  /** `safe_first_element(lst)`: `lst[0]` for a non-empty sequence, None for
      an empty one. */
  function SafeFirstElement<T>(lst: seq<Option<T>>): (r: Option<T>)
    ensures |lst| == 0 ==> r.None?
    ensures |lst| > 0 ==> r == lst[0]
  {
    if |lst| > 0 then lst[0] else None
  }

  /** The result depends on the first element only, and a None result does
      not tell an empty sequence from one that starts with None. */
  lemma SafeFirstElementFirstOnly<T>(a: seq<Option<T>>, b: seq<Option<T>>)
    requires |a| > 0 && |b| > 0 && a[0] == b[0]
    ensures SafeFirstElement(a) == SafeFirstElement(b)
    ensures SafeFirstElement<T>([None] + a).None? && SafeFirstElement<T>([]).None?
  {
  }

  /** `safely_get_value(dct, key, default=None)`: the stored value for a
      present key, even when that value is None, and `default` otherwise. */
  function SafelyGetValue<K, V>(dct: map<K, Option<V>>, key: K, default: Option<V> := None): (r: Option<V>)
    ensures key in dct ==> r == dct[key]
    ensures key !in dct ==> r == default
  {
    if key in dct then dct[key] else default
  }

  /** A stored None wins over the default; an omitted default is None. */
  lemma SafelyGetValueStoredNone<K, V>(dct: map<K, Option<V>>, key: K, default: Option<V>)
    requires key in dct && dct[key].None?
    ensures SafelyGetValue(dct, key, default).None?
    ensures SafelyGetValue(dct - {key}, key) == None
  {
  }

  /** `zoom_array(lst, factor=2)`: every item repeated `factor` times in a
      row, `[item for item in lst for i in range(factor)]`. */
  function ZoomArray<T>(lst: seq<T>, factor: int := 2): (r: seq<T>)
    ensures factor <= 0 ==> r == []
  {
    if |lst| == 0 || factor <= 0 then []
    else Repeat(lst[0], factor) + ZoomArray(lst[1..], factor)
  }

  /** `[item for i in range(n)]`. */
  function Repeat<T>(item: T, n: nat): (r: seq<T>)
    ensures |r| == n && forall i :: 0 <= i < n ==> r[i] == item
  {
    if n == 0 then [] else [item] + Repeat(item, n - 1)
  }

  lemma {:induction false} ZoomArrayLength<T>(lst: seq<T>, factor: int)
    requires factor >= 1
    ensures |ZoomArray(lst, factor)| == |lst| * factor
  {
    if |lst| > 0 {
      ZoomArrayLength(lst[1..], factor);
      assert |lst| * factor == factor + |lst[1..]| * factor by {
        assert |lst| == |lst[1..]| + 1;
      }
    }
  }

  /** The result has `factor` copies of each item, in order: position `i`
      holds item `i / factor` (Python's `//`, which agrees with Dafny's `/`
      for a positive divisor). */
  lemma {:induction false} ZoomArrayIndex<T>(lst: seq<T>, factor: int, i: int)
    requires factor >= 1 && 0 <= i < |lst| * factor
    ensures |ZoomArray(lst, factor)| == |lst| * factor
    ensures ZoomArray(lst, factor)[i] == lst[i / factor]
    decreases |lst|
  {
    ZoomArrayLength(lst, factor);
    ZoomArrayLength(lst[1..], factor);
    var r := ZoomArray(lst, factor);
    if i < factor {
      DivOfSmall(i, factor);
      assert r[i] == Repeat(lst[0], factor)[i] == lst[0];
    } else {
      var rest := ZoomArray(lst[1..], factor);
      assert r[i] == rest[i - factor];
      assert i - factor < |lst[1..]| * factor by {
        assert |lst| * factor == factor + |lst[1..]| * factor by {
          assert |lst| == |lst[1..]| + 1;
        }
      }
      ZoomArrayIndex(lst[1..], factor, i - factor);
      DivShift(i, factor);
      var q := (i - factor) / factor;
      DivBound(i - factor, |lst[1..]|, factor);
      assert rest[i - factor] == lst[1..][q] == lst[q + 1];
    }
  }

  lemma DivBound(i: int, n: int, f: int)
    requires f >= 1 && 0 <= i < n * f
    ensures 0 <= i / f < n
  {
    var q := i / f;
    var m := i % f;
    assert i == q * f + m;
    MulSign(q, f);
    MulSign(q - n + 1, f);
    assert (q - n + 1) * f == q * f - n * f + f;
  }

  lemma DivOfSmall(i: int, f: int)
    requires 0 <= i < f
    ensures i / f == 0
  {
  }

  lemma DivShift(i: int, f: int)
    requires 1 <= f <= i
    ensures (i - f) / f == i / f - 1
  {
    var q := (i - f) / f;
    var m := (i - f) % f;
    assert i == (q + 1) * f + m;
    DivUnique(i, f, q + 1, m);
  }

  lemma DivUnique(i: int, f: int, q: int, m: int)
    requires f >= 1 && 0 <= m < f && i == q * f + m
    ensures i / f == q
  {
    var q' := i / f;
    var m' := i % f;
    assert (q - q') * f == m' - m by {
      assert q' * f + m' == q * f + m;
    }
    MulSign(q - q', f);
  }

  lemma {:induction false} MulSign(d: int, f: int)
    requires f >= 1
    ensures d >= 1 ==> d * f >= f
    ensures d <= -1 ==> d * f <= -f
    decreases if d < 0 then -d else d
  {
    if d > 1 {
      MulSign(d - 1, f);
      assert d * f == (d - 1) * f + f;
    } else if d < -1 {
      MulSign(d + 1, f);
      assert d * f == (d + 1) * f - f;
    }
  }

  /** Factor 1 gives the items back, and the module's own example turns
      (12, 72, 91) into [12, 12, 72, 72, 91, 91]. */
  lemma ZoomArrayExamples<T>(lst: seq<T>)
    ensures ZoomArray(lst, 1) == lst
    ensures ZoomArray([12, 72, 91]) == [12, 12, 72, 72, 91, 91]
  {
    ZoomArrayLength(lst, 1);
    forall i | 0 <= i < |lst| ensures ZoomArray(lst, 1)[i] == lst[i] {
      ZoomArrayIndex(lst, 1, i);
    }
    assert Repeat(12, 2) == [12, 12] && Repeat(72, 2) == [72, 72] && Repeat(91, 2) == [91, 91];
    assert ZoomArray([91]) == [91, 91];
    assert [12, 72, 91][1..] == [72, 91] && [72, 91][1..] == [91];
  }
}
