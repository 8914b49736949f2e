/**
 * `Array.prototype.sort(compare)`: a stable sort driven by a comparator that returns a
 * negative number, zero or a positive number. Modelled as insertion sort, which for a
 * comparator that is a consistent order gives the same result as any stable sort.
 */
module Sorting {

  /** `a` comes no later than `b` under `cmp`. */
  predicate Before<T>(cmp: (T, T) -> int, a: T, b: T) {
    cmp(a, b) <= 0
  }

  predicate Sorted<T>(cmp: (T, T) -> int, s: seq<T>) {
    forall i, j | 0 <= i < j < |s| :: Before(cmp, s[i], s[j])
  }

  /**
   * The comparator behaves like an order on the values in `s`: when it puts `a` after
   * `b` it does not also put `b` after `a`, and "no later than" is transitive.
   */
  predicate Consistent<T(==)>(cmp: (T, T) -> int, s: seq<T>) {
    (forall a, b | a in s && b in s :: cmp(a, b) > 0 ==> Before(cmp, b, a))
    && (forall a, b, c | a in s && b in s && c in s ::
          Before(cmp, a, b) && Before(cmp, b, c) ==> Before(cmp, a, c))
  }

  /** Insert `x` into `s` just before the first element that `cmp` puts after `x`. */
  function Insert<T>(cmp: (T, T) -> int, x: T, s: seq<T>): (r: seq<T>)
    ensures |r| == |s| + 1
    ensures multiset(r) == multiset(s) + multiset{x}
  {
    if s == [] then [x]
    else if cmp(s[0], x) > 0 then [x] + s
    else
      assert s == [s[0]] + s[1..];
      [s[0]] + Insert(cmp, x, s[1..])
  }

  /** `s.slice().sort(cmp)`. */
  function Sort<T>(cmp: (T, T) -> int, s: seq<T>): (r: seq<T>)
    ensures |r| == |s|
    ensures multiset(r) == multiset(s)
  {
    if s == [] then []
    else
      assert s == s[..|s| - 1] + [s[|s| - 1]];
      Insert(cmp, s[|s| - 1], Sort(cmp, s[..|s| - 1]))
  }

  lemma {:induction false} InsertSorted<T>(cmp: (T, T) -> int, x: T, s: seq<T>, all: seq<T>)
    requires Consistent(cmp, all)
    requires x in all && forall y | y in s :: y in all
    requires Sorted(cmp, s)
    ensures Sorted(cmp, Insert(cmp, x, s))
  {
    if s == [] {
    } else if cmp(s[0], x) > 0 {
      assert Before(cmp, x, s[0]);
      var r := [x] + s;
      forall i, j | 0 <= i < j < |r|
        ensures Before(cmp, r[i], r[j])
      {
        if i == 0 && j > 1 {
          assert Before(cmp, s[0], s[j - 1]);
        }
      }
    } else {
      InsertSorted(cmp, x, s[1..], all);
      var t := Insert(cmp, x, s[1..]);
      var r := [s[0]] + t;
      forall i, j | 0 <= i < j < |r|
        ensures Before(cmp, r[i], r[j])
      {
        if i == 0 {
          assert r[j] in multiset(t);
          assert r[j] == x || r[j] in multiset(s[1..]);
          if r[j] != x {
            var k :| 0 <= k < |s[1..]| && s[1..][k] == r[j];
            assert Before(cmp, s[0], s[k + 1]);
          }
        }
      }
    }
  }

  /** For a consistent comparator the result is in order. */
  lemma {:induction false} SortSorted<T>(cmp: (T, T) -> int, s: seq<T>, all: seq<T>)
    requires Consistent(cmp, all)
    requires forall y | y in s :: y in all
    ensures Sorted(cmp, Sort(cmp, s))
  {
    if s != [] {
      var p := s[..|s| - 1];
      SortSorted(cmp, p, all);
      forall y | y in Sort(cmp, p) ensures y in all {
        assert y in multiset(Sort(cmp, p));
        assert y in multiset(p);
      }
      InsertSorted(cmp, s[|s| - 1], Sort(cmp, p), all);
    }
  }
}
