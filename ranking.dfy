/**
 * Python's `sorted(xs, key=k, reverse=True)`: a stable sort into non-increasing
 * key order, here written as an insertion sort, together with the filter the
 * engine applies to its result ("all bids equal to the top bid").
 */
module Ranking {

  /** Puts `x` in front of the first element whose key is not larger than its own. */
  function Insert<T>(x: T, s: seq<T>, key: T -> real): (r: seq<T>)
    ensures |r| == |s| + 1
  {
    if s == [] || key(s[0]) <= key(x) then [x] + s else [s[0]] + Insert(x, s[1..], key)
  }

  function SortDesc<T>(s: seq<T>, key: T -> real): (r: seq<T>)
    ensures |r| == |s|
  {
    if s == [] then [] else Insert(s[0], SortDesc(s[1..], key), key)
  }

  /** A list comprehension `[x for x in s if p(x)]`. */
  function Filter<T>(s: seq<T>, p: T -> bool): (r: seq<T>)
    ensures |r| <= |s|
    ensures forall x :: x in r ==> x in s && p(x)
  {
    if s == [] then [] else (if p(s[0]) then [s[0]] else []) + Filter(s[1..], p)
  }

  ghost predicate SortedDesc<T>(s: seq<T>, key: T -> real)
  {
    forall i, j :: 0 <= i < j < |s| ==> key(s[i]) >= key(s[j])
  }

  /** `p` never holds of two elements of `s` with different keys. */
  ghost predicate KeyConstant<T>(s: seq<T>, key: T -> real, p: T -> bool)
  {
    forall x, y :: x in s && y in s && p(x) && p(y) ==> key(x) == key(y)
  }

  lemma {:induction false} FilterAppend<T>(a: seq<T>, b: seq<T>, p: T -> bool)
    ensures Filter(a + b, p) == Filter(a, p) + Filter(b, p)
  {
    if a == [] {
      assert a + b == b;
    } else {
      assert (a + b)[0] == a[0];
      assert (a + b)[1..] == a[1..] + b;
      FilterAppend(a[1..], b, p);
    }
  }

  lemma {:induction false} InsertPerm<T>(x: T, s: seq<T>, key: T -> real)
    ensures multiset(Insert(x, s, key)) == multiset([x] + s)
  {
    if s != [] && key(s[0]) > key(x) {
      InsertPerm(x, s[1..], key);
      assert s == [s[0]] + s[1..];
    }
  }

  lemma {:induction false} SortPerm<T>(s: seq<T>, key: T -> real)
    ensures multiset(SortDesc(s, key)) == multiset(s)
  {
    if s != [] {
      SortPerm(s[1..], key);
      InsertPerm(s[0], SortDesc(s[1..], key), key);
      assert s == [s[0]] + s[1..];
    }
  }

  lemma {:induction false} InsertSorted<T>(x: T, s: seq<T>, key: T -> real)
    requires SortedDesc(s, key)
    ensures SortedDesc(Insert(x, s, key), key)
  {
    if s != [] && key(s[0]) > key(x) {
      var t := s[1..];
      assert SortedDesc(t, key);
      InsertSorted(x, t, key);
      var r := Insert(x, t, key);
      InsertPerm(x, t, key);
      forall j | 0 <= j < |r| ensures key(s[0]) >= key(r[j]) {
        assert r[j] in multiset([x] + t);
        if r[j] != x {
          assert r[j] in t;
        }
      }
    }
  }

  lemma {:induction false} SortSorted<T>(s: seq<T>, key: T -> real)
    ensures SortedDesc(SortDesc(s, key), key)
  {
    if s != [] {
      SortSorted(s[1..], key);
      InsertSorted(s[0], SortDesc(s[1..], key), key);
    }
  }

  /** The first element of the sorted list has the largest key. */
  lemma SortHeadIsMax<T>(s: seq<T>, key: T -> real)
    requires |s| > 0
    ensures forall x :: x in s ==> key(x) <= key(SortDesc(s, key)[0])
  {
    var r := SortDesc(s, key);
    SortSorted(s, key);
    SortPerm(s, key);
    forall x | x in s ensures key(x) <= key(r[0]) {
      assert x in multiset(r);
      var j :| 0 <= j < |r| && r[j] == x;
      assert j == 0 || key(r[0]) >= key(r[j]);
    }
  }

  lemma {:induction false} FilterInsertCount<T>(x: T, s: seq<T>, key: T -> real, p: T -> bool)
    ensures |Filter(Insert(x, s, key), p)| == (if p(x) then 1 else 0) + |Filter(s, p)|
  {
    if s != [] && key(s[0]) > key(x) {
      FilterInsertCount(x, s[1..], key, p);
      assert Insert(x, s, key) == [s[0]] + Insert(x, s[1..], key);
    }
  }

  /** Sorting does not change how many elements satisfy a predicate. */
  lemma {:induction false} FilterSortCount<T>(s: seq<T>, key: T -> real, p: T -> bool)
    ensures |Filter(SortDesc(s, key), p)| == |Filter(s, p)|
  {
    if s != [] {
      FilterSortCount(s[1..], key, p);
      FilterInsertCount(s[0], SortDesc(s[1..], key), key, p);
    }
  }

  lemma {:induction false} FilterInsertStable<T>(x: T, s: seq<T>, key: T -> real, p: T -> bool)
    requires p(x) ==> forall j :: 0 <= j < |s| && p(s[j]) ==> key(s[j]) == key(x)
    ensures Filter(Insert(x, s, key), p) == (if p(x) then [x] else []) + Filter(s, p)
  {
    if s != [] && key(s[0]) > key(x) {
      assert !p(x) || !p(s[0]);
      FilterInsertStable(x, s[1..], key, p);
      assert Insert(x, s, key) == [s[0]] + Insert(x, s[1..], key);
    }
  }

  /**
   * Stability: elements picked out by a predicate that only ever holds of
   * elements with one and the same key keep their original relative order.
   */
  lemma {:induction false} SortStable<T>(s: seq<T>, key: T -> real, p: T -> bool)
    requires KeyConstant(s, key, p)
    ensures Filter(SortDesc(s, key), p) == Filter(s, p)
  {
    if s != [] {
      assert KeyConstant(s[1..], key, p);
      SortStable(s[1..], key, p);
      SortPerm(s[1..], key);
      var r := SortDesc(s[1..], key);
      forall j | 0 <= j < |r| && p(s[0]) && p(r[j]) ensures key(r[j]) == key(s[0]) {
        assert r[j] in multiset(s[1..]);
      }
      FilterInsertStable(s[0], SortDesc(s[1..], key), key, p);
    }
  }

  /** At most `m` elements satisfy `p` when none from index `m` on does. */
  lemma {:induction false} FilterCountUpper<T>(s: seq<T>, p: T -> bool, m: nat)
    requires forall j :: m <= j < |s| ==> !p(s[j])
    ensures |Filter(s, p)| <= m
  {
    if s != [] && m > 0 {
      FilterCountUpper(s[1..], p, m - 1);
    } else if s != [] {
      FilterCountUpper(s[1..], p, 0);
    }
  }

  /** At least `m` elements satisfy `p` when the first `m` all do. */
  lemma {:induction false} FilterCountLower<T>(s: seq<T>, p: T -> bool, m: nat)
    requires m <= |s|
    requires forall j :: 0 <= j < m ==> p(s[j])
    ensures |Filter(s, p)| >= m
  {
    if m > 0 {
      FilterCountLower(s[1..], p, m - 1);
    }
  }
}
