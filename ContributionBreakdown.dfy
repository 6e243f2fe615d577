/** The per-type totals behind the contribution breakdown
    (src/components/ContributionBreakdown.tsx). */
module ContributionBreakdown {
  import opened Types
  import opened Strings
  import opened Folds

  predicate AnyContribution(c: Contribution) { true }
  function KindOf(c: Contribution): string { c.kind }

  /** `typeBreakdown`: the counts added up per contribution type. */
  function TypeBreakdown(cs: seq<Contribution>): map<string, int> {
    GroupSum(cs, AnyContribution, KindOf, CountOf)
  }

  /** The types in the order `Object.entries(typeBreakdown)` lists them: first
      appearance first (a type name is never an array index). */
  function BreakdownKinds(cs: seq<Contribution>): seq<string> {
    DistinctKeys(cs, AnyContribution, KindOf)
  }

  /** `total`: the breakdown's values added up in entry order. */
  function Total(cs: seq<Contribution>): int {
    SumOver(TypeBreakdown(cs), BreakdownKinds(cs))
  }

  /** Sum of the counts of the contributions of type `kind`. */
  function CountOfKind(cs: seq<Contribution>, kind: string): int {
    KeySum(cs, AnyContribution, KindOf, CountOf, kind)
  }

  /** A type has an entry exactly when some contribution has that type, and the entry is
      the sum of their counts. */
  lemma TypeBreakdownSpec(cs: seq<Contribution>, kind: string)
    ensures kind in TypeBreakdown(cs) <==> exists i :: 0 <= i < |cs| && cs[i].kind == kind
    ensures Lookup(TypeBreakdown(cs), kind) == CountOfKind(cs, kind)
  {
    GroupSumAt(cs, AnyContribution, KindOf, CountOf, kind);
    if exists i :: 0 <= i < |cs| && cs[i].kind == kind {
      var i :| 0 <= i < |cs| && cs[i].kind == kind;
      assert AnyContribution(cs[i]) && KindOf(cs[i]) == kind;
    }
  }

  /** Keeping every contribution adds up all the counts. */
  lemma {:induction false} KeptAllIsSumCounts(cs: seq<Contribution>)
    ensures KeptSum(cs, AnyContribution, CountOf) == SumCounts(cs)
    decreases |cs|
  {
    if cs != [] {
      KeptAllIsSumCounts(cs[..|cs| - 1]);
    }
  }

  /** `total` is the sum of all contribution counts, which is also the sum of the
      breakdown's values whatever their order. */
  lemma TotalIsSumOfCounts(cs: seq<Contribution>)
    ensures Total(cs) == SumCounts(cs)
    ensures MapSum(TypeBreakdown(cs)) == SumCounts(cs)
  {
    var m, ks := TypeBreakdown(cs), BreakdownKinds(cs);
    forall k ensures k in ks <==> k in m {
      GroupSumAt(cs, AnyContribution, KindOf, CountOf, k);
    }
    SumOverAllKeys(m, ks);
    GroupSumTotal(cs, AnyContribution, KindOf, CountOf);
    KeptAllIsSumCounts(cs);
  }

  /** One line of the breakdown: its title is the type with its first "Event" removed,
      and its total. */
  datatype BreakdownRow = BreakdownRow(title: string, count: int)

  /** The lines of the breakdown, in entry order. */
  function BreakdownRows(cs: seq<Contribution>): (rows: seq<BreakdownRow>)
    ensures |rows| == |BreakdownKinds(cs)|
    ensures forall i :: 0 <= i < |rows| ==>
      rows[i].title == RemoveFirst(BreakdownKinds(cs)[i], "Event") &&
      rows[i].count == CountOfKind(cs, BreakdownKinds(cs)[i])
  {
    var ks := BreakdownKinds(cs);
    var m := TypeBreakdown(cs);
    forall i | 0 <= i < |ks| ensures Lookup(m, ks[i]) == CountOfKind(cs, ks[i]) {
      TypeBreakdownSpec(cs, ks[i]);
    }
    seq(|ks|, i requires 0 <= i < |ks| => BreakdownRow(RemoveFirst(ks[i], "Event"), Lookup(m, ks[i])))
  }
}
