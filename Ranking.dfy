/** Dictionary entries and the "sort descending, take the first" pattern the components
    use to pick a maximum. */
module Ranking {
  import opened Types
  import opened Folds
  import opened Sorting

  /** A `[key, value]` pair of `Object.entries`. */
  datatype Entry = Entry(key: string, count: int)

  function CountOfEntry(e: Entry): int { e.count }

  /** `Object.entries(m)` with the keys in the order `ks` lists them. */
  function Entries(m: map<string, int>, ks: seq<string>): (es: seq<Entry>)
    ensures |es| == |ks|
    ensures forall i :: 0 <= i < |ks| ==> es[i].key == ks[i] && es[i].count == Lookup(m, ks[i])
  {
    seq(|ks|, i requires 0 <= i < |ks| => Entry(ks[i], Lookup(m, ks[i])))
  }

  /** `entries.sort(([, a], [, b]) => b - a)[0]`: an entry whose count no other entry
      exceeds. */
  function TopEntry(es: seq<Entry>): (top: Entry)
    requires es != []
    ensures top in es
    ensures forall e <- es :: e.count <= top.count
  {
    var sorted := SortDescBy(es, CountOfEntry);
    assert sorted[0] in multiset(sorted);
    forall e <- es ensures e.count <= sorted[0].count {
      assert e in multiset(sorted);
      var k :| 0 <= k < |sorted| && sorted[k] == e;
      if k > 0 {
        assert CountOfEntry(sorted[0]) >= CountOfEntry(sorted[k]);
      }
    }
    sorted[0]
  }

  /** Some element of `xs` is kept. */
  ghost predicate SomeKept<T>(xs: seq<T>, keep: T -> bool) {
    exists i :: 0 <= i < |xs| && keep(xs[i])
  }

  /** The group fold, listed with `Object.entries` and sorted descending by total, then
      its first entry: a key of a kept element whose total no other key exceeds, absent
      when nothing is kept. */
  function TopGroup<T>(xs: seq<T>, keep: T -> bool, key: T -> string, val: T -> int): (top: Option<Entry>)
    ensures top.None? <==> !SomeKept(xs, keep)
    ensures top.Some? ==> HasKey(xs, keep, key, top.value.key)
    ensures top.Some? ==> top.value.count == KeySum(xs, keep, key, val, top.value.key)
    ensures top.Some? ==> forall k :: HasKey(xs, keep, key, k) ==> KeySum(xs, keep, key, val, k) <= top.value.count
  {
    var m := GroupSum(xs, keep, key, val);
    var ks := DistinctKeys(xs, keep, key);
    var es := Entries(m, ks);
    assert SomeKept(xs, keep) ==> ks != [] by {
      if SomeKept(xs, keep) {
        var i :| 0 <= i < |xs| && keep(xs[i]);
        assert HasKey(xs, keep, key, key(xs[i]));
      }
    }
    if es == [] then
      None
    else
      var top := TopEntry(es);
      GroupSumAt(xs, keep, key, val, top.key);
      forall k | HasKey(xs, keep, key, k) ensures KeySum(xs, keep, key, val, k) <= top.count {
        GroupSumAt(xs, keep, key, val, k);
        var j :| 0 <= j < |ks| && ks[j] == k;
        assert es[j] in es;
      }
      Some(top)
  }
}
