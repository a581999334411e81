/** Collection operations the services use: `Array.prototype.filter` and a
    MongoDB `sort({ field: -1 })` on an optional timestamp field. */
module Seqs {
  import opened JsValues

  /** `s.filter(f)`: the elements satisfying `f`, in their original order. */
  function Filter<T(==,!new)>(s: seq<T>, f: T -> bool): (r: seq<T>)
    ensures |r| <= |s|
    ensures forall x :: x in r ==> x in s && f(x)
    ensures forall x :: multiset(r)[x] == if f(x) then multiset(s)[x] else 0
  {
    if s == [] then []
    else
      var rest := Filter(s[1..], f);
      assert s == [s[0]] + s[1..];
      if f(s[0]) then [s[0]] + rest else rest
  }

  lemma {:induction false} FilterAppend<T(!new)>(s: seq<T>, t: seq<T>, f: T -> bool)
    ensures Filter(s + t, f) == Filter(s, f) + Filter(t, f)
  {
    if s == [] {
      assert s + t == t;
    } else {
      assert (s + t)[1..] == s[1..] + t;
      FilterAppend(s[1..], t, f);
    }
  }

  /** A filter that keeps every element changes nothing. */
  lemma {:induction false} FilterKeepsAll<T(!new)>(s: seq<T>, f: T -> bool)
    requires forall i :: 0 <= i < |s| ==> f(s[i])
    ensures Filter(s, f) == s
  {
    if s != [] {
      FilterKeepsAll(s[1..], f);
    }
  }

  /** Filtering twice by the same test is filtering once. */
  lemma {:induction false} FilterTwice<T(!new)>(s: seq<T>, f: T -> bool)
    ensures Filter(Filter(s, f), f) == Filter(s, f)
  {
    if s != [] {
      FilterTwice(s[1..], f);
    }
  }

  /** Filtering by a test that excludes the first one leaves nothing. */
  lemma {:induction false} FilterExcluded<T(!new)>(s: seq<T>, f: T -> bool, g: T -> bool)
    requires forall x :: f(x) ==> !g(x)
    ensures Filter(Filter(s, f), g) == []
  {
    if s != [] {
      FilterExcluded(s[1..], f, g);
    }
  }

  /** Order of a descending sort on an optional number: a missing value sorts
      below every present one, as MongoDB orders a missing field (null). */
  predicate KeyGe(a: Option<int>, b: Option<int>) {
    b.None? || (a.Some? && a.value >= b.value)
  }

  predicate SortedDesc<T>(s: seq<T>, key: T -> Option<int>) {
    forall i, j :: 0 <= i < j < |s| ==> KeyGe(key(s[i]), key(s[j]))
  }

  /** Inserts `x` into a sorted sequence in front of the first element it is
      not below. */
  function InsertDesc<T(==,!new)>(x: T, s: seq<T>, key: T -> Option<int>): (r: seq<T>)
    requires SortedDesc(s, key)
    ensures SortedDesc(r, key)
    ensures multiset(r) == multiset(s) + multiset{x}
  {
    if s == [] || KeyGe(key(x), key(s[0])) then
      [x] + s
    else
      var rest := InsertDesc(x, s[1..], key);
      assert s == [s[0]] + s[1..];
      forall y | y in rest ensures KeyGe(key(s[0]), key(y)) {
        assert y in multiset(rest);
        if y != x {
          assert y in multiset(s[1..]);
        }
      }
      [s[0]] + rest
  }

  /** `sort({ key: -1 })`: a permutation of `s` ordered by `key`, largest
      first, missing last; ties keep their order in `s`. */
  function SortDesc<T(==,!new)>(s: seq<T>, key: T -> Option<int>): (r: seq<T>)
    ensures SortedDesc(r, key)
    ensures multiset(r) == multiset(s)
  {
    if s == [] then []
    else
      assert s == [s[0]] + s[1..];
      InsertDesc(s[0], SortDesc(s[1..], key), key)
  }
}
