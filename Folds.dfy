/** Folds shared by the services and the components.

    The source builds dictionaries with
      `xs.reduce((acc, x) => { if (keep(x)) acc[key(x)] = (acc[key(x)] || 0) + val(x); return acc }, {})`
    and reads them back with `Object.values(...)` sums and `Object.entries(...)`.
    `GroupSum` is that fold, one step per element from left to right; `KeySum` and
    `KeptSum` are independent "filter, then add up" definitions it is proved against;
    `MapSum` adds up the values of a dictionary; `DistinctKeys` is the order in which
    `Object.entries` lists keys that are not array indices (first insertion first), and
    `SumOver` adds up `Object.values` in that order. */
module Folds {

  /** `(acc[k] || 0)`: the value stored under `k`, 0 when `k` is absent. */
  function Lookup(m: map<string, int>, k: string): int {
    if k in m then m[k] else 0
  }

  /** Some key of a non-empty dictionary. */
  ghost function PickKey(m: map<string, int>): (k: string)
    requires |m| != 0
    ensures k in m
  {
    var k :| k in m; k
  }

  /** Sum of all values of a dictionary. */
  ghost function MapSum(m: map<string, int>): int
    decreases |m|
  {
    if |m| == 0 then 0
    else
      var k := PickKey(m);
      assert (m - {k}).Keys == m.Keys - {k};
      m[k] + MapSum(m - {k})
  }

  lemma {:induction false} MapSumRemove(m: map<string, int>, k: string)
    requires k in m
    ensures MapSum(m) == m[k] + MapSum(m - {k})
    decreases |m|
  {
    var j := PickKey(m);
    if j != k {
      var mj, mk := m - {j}, m - {k};
      assert mj.Keys == m.Keys - {j};
      assert mk.Keys == m.Keys - {k};
      assert k in mj && j in mk;
      assert mj - {k} == mk - {j};
      MapSumRemove(mj, k);
      MapSumRemove(mk, j);
    }
  }

  /** Storing `v` under `k` changes the value sum by `v` minus what `k` held before. */
  lemma MapSumUpdate(m: map<string, int>, k: string, v: int)
    ensures MapSum(m[k := v]) == MapSum(m) - Lookup(m, k) + v
  {
    MapSumRemove(m[k := v], k);
    assert m[k := v] - {k} == m - {k};
    if k in m {
      MapSumRemove(m, k);
    } else {
      assert m - {k} == m;
    }
  }

  /** With no negative value, the sum is not negative. */
  lemma {:induction false} MapSumNonNegative(m: map<string, int>)
    requires forall k :: k in m ==> m[k] >= 0
    ensures MapSum(m) >= 0
    decreases |m|
  {
    if |m| != 0 {
      var k := PickKey(m);
      assert (m - {k}).Keys == m.Keys - {k};
      MapSumNonNegative(m - {k});
    }
  }

  /** With no negative value, each value is at most the sum. */
  lemma ValueAtMostMapSum(m: map<string, int>, k: string)
    requires forall j :: j in m ==> m[j] >= 0
    requires k in m
    ensures 0 <= m[k] <= MapSum(m)
  {
    MapSumRemove(m, k);
    MapSumNonNegative(m - {k});
  }

  /** When every element adds at least 1, every entry of the fold is at least 1. */
  lemma {:induction false} GroupSumPositive<T>(xs: seq<T>, keep: T -> bool, key: T -> string, val: T -> int)
    requires forall x :: val(x) >= 1
    ensures forall k :: k in GroupSum(xs, keep, key, val) ==> GroupSum(xs, keep, key, val)[k] >= 1
    decreases |xs|
  {
    if xs != [] {
      GroupSumPositive(xs[..|xs| - 1], keep, key, val);
    }
  }

  /** The dictionary fold: kept elements add `val` to the entry of their `key`. */
  function GroupSum<T>(xs: seq<T>, keep: T -> bool, key: T -> string, val: T -> int): map<string, int>
    decreases |xs|
  {
    if xs == [] then map[]
    else
      var acc := GroupSum(xs[..|xs| - 1], keep, key, val);
      var x := xs[|xs| - 1];
      if keep(x) then acc[key(x) := Lookup(acc, key(x)) + val(x)] else acc
  }

  /** Some kept element of `xs` has key `k`. */
  ghost predicate HasKey<T>(xs: seq<T>, keep: T -> bool, key: T -> string, k: string) {
    exists i :: 0 <= i < |xs| && keep(xs[i]) && key(xs[i]) == k
  }

  /** Sum of `val` over the kept elements whose key is `k`. */
  function KeySum<T>(xs: seq<T>, keep: T -> bool, key: T -> string, val: T -> int, k: string): int
    decreases |xs|
  {
    if xs == [] then 0
    else
      var x := xs[|xs| - 1];
      KeySum(xs[..|xs| - 1], keep, key, val, k) + (if keep(x) && key(x) == k then val(x) else 0)
  }

  /** Sum of `val` over all kept elements. */
  function KeptSum<T>(xs: seq<T>, keep: T -> bool, val: T -> int): int
    decreases |xs|
  {
    if xs == [] then 0
    else
      var x := xs[|xs| - 1];
      KeptSum(xs[..|xs| - 1], keep, val) + (if keep(x) then val(x) else 0)
  }

  lemma {:induction false} HasKeySnoc<T>(xs: seq<T>, keep: T -> bool, key: T -> string, k: string)
    requires xs != []
    ensures HasKey(xs, keep, key, k) <==>
      HasKey(xs[..|xs| - 1], keep, key, k) || (keep(xs[|xs| - 1]) && key(xs[|xs| - 1]) == k)
  {
    var p := xs[..|xs| - 1];
    if HasKey(xs, keep, key, k) {
      var i :| 0 <= i < |xs| && keep(xs[i]) && key(xs[i]) == k;
      if i < |p| {
        assert p[i] == xs[i];
      }
    }
    if HasKey(p, keep, key, k) {
      var i :| 0 <= i < |p| && keep(p[i]) && key(p[i]) == k;
      assert xs[i] == p[i];
    }
  }

  /** A key is present exactly when some kept element has it, and its value is the
      sum of the values of those elements. */
  lemma {:induction false} GroupSumAt<T>(xs: seq<T>, keep: T -> bool, key: T -> string, val: T -> int, k: string)
    ensures k in GroupSum(xs, keep, key, val) <==> HasKey(xs, keep, key, k)
    ensures Lookup(GroupSum(xs, keep, key, val), k) == KeySum(xs, keep, key, val, k)
    decreases |xs|
  {
    if xs != [] {
      GroupSumAt(xs[..|xs| - 1], keep, key, val, k);
      HasKeySnoc(xs, keep, key, k);
    }
  }

  /** The values of the dictionary add up to the sum over all kept elements. */
  lemma {:induction false} GroupSumTotal<T>(xs: seq<T>, keep: T -> bool, key: T -> string, val: T -> int)
    ensures MapSum(GroupSum(xs, keep, key, val)) == KeptSum(xs, keep, val)
    decreases |xs|
  {
    if xs != [] {
      var acc := GroupSum(xs[..|xs| - 1], keep, key, val);
      var x := xs[|xs| - 1];
      GroupSumTotal(xs[..|xs| - 1], keep, key, val);
      if keep(x) {
        MapSumUpdate(acc, key(x), Lookup(acc, key(x)) + val(x));
      }
    }
  }

  /** `xs.filter(keep).map(f)`: the images of the kept elements, in input order. */
  function FilterMap<T, U>(xs: seq<T>, keep: T -> bool, f: T -> U): (ys: seq<U>)
    ensures |ys| <= |xs|
    ensures forall y <- ys :: exists x <- xs :: keep(x) && y == f(x)
    ensures forall x <- xs :: keep(x) ==> f(x) in ys
    decreases |xs|
  {
    if xs == [] then []
    else
      var rest := FilterMap(xs[1..], keep, f);
      assert forall x <- xs :: x == xs[0] || x in xs[1..] by {
        assert xs == [xs[0]] + xs[1..];
      }
      if keep(xs[0]) then [f(xs[0])] + rest else rest
  }

  /** Filtering and mapping distributes over concatenation. */
  lemma {:induction false} FilterMapAppend<T, U>(a: seq<T>, b: seq<T>, keep: T -> bool, f: T -> U)
    ensures FilterMap(a + b, keep, f) == FilterMap(a, keep, f) + FilterMap(b, keep, f)
    decreases |a|
  {
    if a == [] {
      assert a + b == b;
    } else {
      assert (a + b)[0] == a[0];
      assert (a + b)[1..] == a[1..] + b;
      FilterMapAppend(a[1..], b, keep, f);
    }
  }

  /** The keys of the kept elements, each once, in order of first appearance. */
  function DistinctKeys<T>(xs: seq<T>, keep: T -> bool, key: T -> string): (ks: seq<string>)
    ensures forall i, j :: 0 <= i < j < |ks| ==> ks[i] != ks[j]
    ensures forall k :: k in ks <==> HasKey(xs, keep, key, k)
    decreases |xs|
  {
    if xs == [] then []
    else
      var ks := DistinctKeys(xs[..|xs| - 1], keep, key);
      var x := xs[|xs| - 1];
      forall k ensures HasKey(xs, keep, key, k) <==> HasKey(xs[..|xs| - 1], keep, key, k) || (keep(x) && key(x) == k) {
        HasKeySnoc(xs, keep, key, k);
      }
      if keep(x) && key(x) !in ks then ks + [key(x)] else ks
  }

  /** Insertion order: wherever a later key of `DistinctKeys` occurs in `xs`, every earlier
      key has already occurred before that position. */
  lemma {:induction false} DistinctKeysFirstSeen<T>(xs: seq<T>, keep: T -> bool, key: T -> string)
    ensures forall i, j, p ::
      (0 <= i < j < |DistinctKeys(xs, keep, key)| && 0 <= p < |xs| &&
       keep(xs[p]) && key(xs[p]) == DistinctKeys(xs, keep, key)[j]) ==>
        HasKey(xs[..p], keep, key, DistinctKeys(xs, keep, key)[i])
    decreases |xs|
  {
    if xs != [] {
      var xs' := xs[..|xs| - 1];
      var x := xs[|xs| - 1];
      var ks := DistinctKeys(xs, keep, key);
      var ks' := DistinctKeys(xs', keep, key);
      DistinctKeysFirstSeen(xs', keep, key);
      assert ks == if keep(x) && key(x) !in ks' then ks' + [key(x)] else ks';
      forall i, j, p | 0 <= i < j < |ks| && 0 <= p < |xs| && keep(xs[p]) && key(xs[p]) == ks[j]
        ensures HasKey(xs[..p], keep, key, ks[i])
      {
        assert ks[i] == ks'[i];
        assert HasKey(xs', keep, key, ks'[i]);
        if p == |xs| - 1 {
          assert xs[..p] == xs';
        } else {
          assert xs[p] == xs'[p] && xs[..p] == xs'[..p];
          assert HasKey(xs', keep, key, ks[j]);
          assert j < |ks'|;
        }
      }
    }
  }

  /** `Object.values(m).reduce((a, b) => a + b, 0)` with the keys listed in `ks`. */
  function SumOver(m: map<string, int>, ks: seq<string>): int
    decreases |ks|
  {
    if ks == [] then 0 else SumOver(m, ks[..|ks| - 1]) + Lookup(m, ks[|ks| - 1])
  }

  /** Keys that are not listed do not take part in the sum. */
  lemma {:induction false} SumOverUnlisted(m: map<string, int>, ks: seq<string>, k: string)
    requires k !in ks
    ensures SumOver(m - {k}, ks) == SumOver(m, ks)
    decreases |ks|
  {
    if ks != [] {
      assert ks[..|ks| - 1] + [ks[|ks| - 1]] == ks;
      SumOverUnlisted(m, ks[..|ks| - 1], k);
    }
  }

  /** Adding up the values over a list of all the keys, each listed once, gives the sum
      of all values. */
  lemma {:induction false} SumOverAllKeys(m: map<string, int>, ks: seq<string>)
    requires forall i, j :: 0 <= i < j < |ks| ==> ks[i] != ks[j]
    requires forall k :: k in ks <==> k in m
    ensures SumOver(m, ks) == MapSum(m)
    decreases |ks|
  {
    if ks == [] {
      assert m == map[];
    } else {
      var k := ks[|ks| - 1];
      var front := ks[..|ks| - 1];
      assert k !in front;
      forall j | j in front ensures j in m - {k} {
        assert j in ks;
      }
      forall j | j in m - {k} ensures j in front {
        assert j in ks && j != k;
        var i :| 0 <= i < |ks| && ks[i] == j;
        assert i < |ks| - 1 && front[i] == j;
      }
      SumOverAllKeys(m - {k}, front);
      SumOverUnlisted(m, front, k);
      MapSumRemove(m, k);
    }
  }
}
