/**
 * Sequence helpers shared by the scraper model: an Option type, the offsets
 * of a stepped range, and order-preserving deduplication.
 */
module Collections {

  datatype Option<T> = None | Some(value: T)

  /** The values `start, start + step, ...` strictly below `stop`. */
  function RangeFrom(start: int, stop: int, step: nat): seq<int>
    requires step > 0
    decreases if start < stop then stop - start else 0
  {
    if start >= stop then [] else [start] + RangeFrom(start + step, stop, step)
  }

  /** The values of a range that starts at 0 and goes up by `step` below `stop`. */
  function Range(stop: int, step: nat): seq<int>
    requires step > 0
  {
    RangeFrom(0, stop, step)
  }

  /** The k-th value of a range is `start + k * step`, and every value lies below `stop`. */
  lemma {:induction false} RangeFromAt(start: int, stop: int, step: nat, k: nat)
    requires step > 0
    requires k < |RangeFrom(start, stop, step)|
    ensures RangeFrom(start, stop, step)[k] == start + k * step
    ensures start + k * step < stop
    decreases k
  {
    if k > 0 {
      RangeFromAt(start + step, stop, step, k - 1);
      assert (k - 1) * step + step == k * step;
    }
  }

  /** A range holds `n` values exactly when `n` steps cover the distance and `n - 1` steps do not. */
  lemma {:induction false} RangeFromLength(start: int, stop: int, step: nat)
    requires step > 0
    ensures start >= stop ==> |RangeFrom(start, stop, step)| == 0
    ensures start < stop ==> var n := |RangeFrom(start, stop, step)|;
      n >= 1 && (n - 1) * step < stop - start <= n * step
    decreases if start < stop then stop - start else 0
  {
    if start < stop {
      RangeFromLength(start + step, stop, step);
      var n := |RangeFrom(start, stop, step)|;
      assert n == 1 + |RangeFrom(start + step, stop, step)|;
      assert (n - 1) * step + step == n * step;
    }
  }

  /** The number `n` with `(n - 1) * step < d <= n * step` is the ceiling of `d / step`. */
  lemma CeilingDivision(d: int, step: nat, n: int)
    requires step > 0 && d > 0
    requires (n - 1) * step < d <= n * step
    ensures n == (d + step - 1) / step
  {
    var q := (d + step - 1) / step;
    var rem := (d + step - 1) % step;
    assert d + step - 1 == q * step + rem && 0 <= rem < step;
    assert (q - n - 1) * step == q * step - (n + 1) * step;
    assert (n - q - 1) * step == n * step - (q + 1) * step;
    NegativeFactor(q - n - 1, step);
    NegativeFactor(n - q - 1, step);
  }

  lemma NegativeFactor(x: int, c: int)
    requires c > 0 && x * c < 0
    ensures x < 0
  {
  }

  /** A range from 0 holds `ceil(stop / step)` values when `stop` is positive, and none otherwise. */
  lemma RangeLength(stop: int, step: nat)
    requires step > 0
    ensures |Range(stop, step)| == if stop > 0 then (stop + step - 1) / step else 0
  {
    RangeFromLength(0, stop, step);
    if stop > 0 {
      CeilingDivision(stop, step, |Range(stop, step)|);
    }
  }

  /** Concatenation regroups freely. */
  lemma AppendAssociates<T>(a: seq<T>, b: seq<T>, c: seq<T>)
    ensures (a + b) + c == a + (b + c)
  {
  }

  /** No element of `s` occurs twice. */
  predicate NoDuplicates<T(==)>(s: seq<T>) {
    forall i, j :: 0 <= i < j < |s| ==> s[i] != s[j]
  }

  /** The position of the first occurrence of `x` in `s`. */
  function FirstIndex<T(==)>(s: seq<T>, x: T): (i: nat)
    requires x in s
    ensures i < |s| && s[i] == x
    ensures forall j :: 0 <= j < i ==> s[j] != x
  {
    if s[0] == x then 0 else 1 + FirstIndex(s[1..], x)
  }

  /** Appending to a sequence does not move the first occurrence of an element already in it. */
  lemma FirstIndexAppend<T>(s: seq<T>, y: T, x: T)
    requires x in s
    ensures FirstIndex(s + [y], x) == FirstIndex(s, x)
  {
    var i := FirstIndex(s + [y], x);
    var k := FirstIndex(s, x);
    assert (s + [y])[k] == x;
    assert i <= k;
    assert s[i] == x;
  }

  /**
   * `s` with every element after its first occurrence dropped, built the
   * way a loop that appends each element not yet collected builds it.
   */
  function Dedup<T(==)>(s: seq<T>): seq<T>
    decreases |s|
  {
    if s == [] then []
    else
      var d := Dedup(s[..|s| - 1]);
      if s[|s| - 1] in d then d else d + [s[|s| - 1]]
  }

  /**
   * Deduplication keeps exactly the elements of `s`, each once, in the
   * order of their first occurrences in `s`; the first-occurrence indices
   * embed the result into `s`, so it is a subsequence of `s`.
   */
  lemma {:induction false} DedupProperties<T>(s: seq<T>)
    ensures NoDuplicates(Dedup(s))
    ensures forall x :: x in s ==> x in Dedup(s)
    ensures forall x :: x in Dedup(s) ==> x in s
    ensures forall i, j :: 0 <= i < j < |Dedup(s)| ==>
      FirstIndex(s, Dedup(s)[i]) < FirstIndex(s, Dedup(s)[j])
    decreases |s|
  {
    if s != [] {
      var p, x := s[..|s| - 1], s[|s| - 1];
      assert s == p + [x];
      DedupProperties(p);
      var d := Dedup(p);
      forall y | y in d ensures FirstIndex(s, y) == FirstIndex(p, y) {
        assert y in p;
        FirstIndexAppend(p, x, y);
      }
      if x !in d {
        assert FirstIndex(s, x) == |p|;
        forall i, j | 0 <= i < j < |d + [x]|
          ensures FirstIndex(s, (d + [x])[i]) < FirstIndex(s, (d + [x])[j])
        {
          if j == |d| {
            assert (d + [x])[i] == d[i] && d[i] in d;
          } else {
            assert (d + [x])[i] == d[i] && d[i] in d;
            assert (d + [x])[j] == d[j] && d[j] in d;
          }
        }
      }
    }
  }

  /** A sequence without repeated elements has as many elements as its set. */
  lemma {:induction false} DistinctCardinality<T>(s: seq<T>)
    requires NoDuplicates(s)
    ensures |set x | x in s| == |s|
    decreases |s|
  {
    if s != [] {
      var p, x := s[..|s| - 1], s[|s| - 1];
      assert s == p + [x];
      DistinctCardinality(p);
      assert x !in p;
      assert (set y | y in s) == (set y | y in p) + {x};
    }
  }
}
