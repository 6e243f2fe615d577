/** `Array.prototype.sort` with a descending comparator `(a, b) => key(b) - key(a)`,
    which is stable: elements with equal keys keep their input order. */
module Sorting {

  predicate SortedDescBy<T>(s: seq<T>, key: T -> int) {
    forall i, j :: 0 <= i < j < |s| ==> key(s[i]) >= key(s[j])
  }

  /** The tail of a sorted sequence is sorted. */
  lemma SortedTail<T>(s: seq<T>, key: T -> int)
    requires s != [] && SortedDescBy(s, key)
    ensures SortedDescBy(s[1..], key)
  {
    assert forall i :: 0 <= i < |s| - 1 ==> s[1..][i] == s[i + 1];
  }

  /** An element no smaller than the head of a sorted sequence can go in front of it. */
  lemma SortedCons<T>(y: T, t: seq<T>, key: T -> int)
    requires SortedDescBy(t, key)
    requires t != [] ==> key(y) >= key(t[0])
    ensures SortedDescBy([y] + t, key)
  {
    var r := [y] + t;
    forall i, j | 0 <= i < j < |r| ensures key(r[i]) >= key(r[j]) {
      assert r[j] == t[j - 1];
      if i > 0 {
        assert r[i] == t[i - 1];
      } else if j > 1 {
        assert key(t[0]) >= key(t[j - 1]);
      }
    }
  }

  /** Places `x` in front of the first element whose key is not larger than its own. */
  function InsertDescBy<T>(x: T, s: seq<T>, key: T -> int): (r: seq<T>)
    requires SortedDescBy(s, key)
    ensures SortedDescBy(r, key)
    ensures multiset(r) == multiset(s) + multiset{x}
    ensures |r| == |s| + 1
    ensures r[0] == x || (s != [] && r[0] == s[0])
    decreases |s|
  {
    if s == [] || key(s[0]) <= key(x) then
      SortedCons(x, s, key);
      [x] + s
    else
      SortedTail(s, key);
      var rest := InsertDescBy(x, s[1..], key);
      assert s == [s[0]] + s[1..];
      SortedCons(s[0], rest, key);
      [s[0]] + rest
  }

  /** Stable descending sort by `key`: an element placed earlier in the input stays in
      front of later elements with the same key. */
  function SortDescBy<T>(xs: seq<T>, key: T -> int): (r: seq<T>)
    ensures SortedDescBy(r, key)
    ensures multiset(r) == multiset(xs)
    ensures |r| == |xs|
    decreases |xs|
  {
    if xs == [] then []
    else
      assert xs == [xs[0]] + xs[1..];
      InsertDescBy(xs[0], SortDescBy(xs[1..], key), key)
  }

  /** The identity key, for sorting numbers themselves. */
  function Id(t: int): int { t }

  /** The head of a descending sequence of numbers is its largest element. */
  lemma HeadIsLargest(s: seq<int>, x: int)
    requires SortedDescBy(s, Id) && s != [] && x in multiset(s)
    ensures x <= s[0]
  {
    var k :| 0 <= k < |s| && s[k] == x;
    if k > 0 {
      assert Id(s[0]) >= Id(s[k]);
    }
  }

  /** A sequence of numbers sorted in descending order is determined by its multiset. */
  lemma {:induction false} SortedDescUnique(a: seq<int>, b: seq<int>)
    requires SortedDescBy(a, Id) && SortedDescBy(b, Id)
    requires multiset(a) == multiset(b)
    ensures a == b
    decreases |a|
  {
    assert |a| == |multiset(a)| == |multiset(b)| == |b|;
    if a != [] {
      HeadIsLargest(b, a[0]);
      HeadIsLargest(a, b[0]);
      assert a == [a[0]] + a[1..] && b == [b[0]] + b[1..];
      assert a[0] == b[0];
      assert multiset(a[1..]) == multiset(a) - multiset{a[0]};
      assert multiset(b[1..]) == multiset(b) - multiset{b[0]};
      SortedDescUnique(a[1..], b[1..]);
    }
  }
}
