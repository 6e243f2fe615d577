/** The computations behind the contribution calendar (src/components/ContributionCalendar.tsx):
    contributions per day, the details listed for one day, the colour band of a day,
    and the 52-week grid of days. */
module ContributionCalendar {
  import opened Types
  import opened Strings
  import opened Folds

  /** `if (!contribution.date)`: a contribution without a date (the empty string) is
      skipped. */
  predicate Dated(c: Contribution) { c.date != "" }

  /** `date.split('T')[0]`: the calendar day of an ISO timestamp. */
  function DayOf(c: Contribution): string { BeforeFirst(c.date, 'T') }

  /** `contributionsByDate`: the counts of the dated contributions added up per day. */
  function ContributionsByDate(cs: seq<Contribution>): map<string, int> {
    GroupSum(cs, Dated, DayOf, CountOf)
  }

  /** A day has an entry exactly when some dated contribution falls on it, the entry is
      the sum of their counts, and the entries add up to the total count of the dated
      contributions. No day key holds a 'T'. */
  lemma ContributionsByDateSpec(cs: seq<Contribution>, day: string)
    ensures day in ContributionsByDate(cs) <==> exists i :: 0 <= i < |cs| && Dated(cs[i]) && DayOf(cs[i]) == day
    ensures Lookup(ContributionsByDate(cs), day) == KeySum(cs, Dated, DayOf, CountOf, day)
    ensures day in ContributionsByDate(cs) ==> 'T' !in day
    ensures MapSum(ContributionsByDate(cs)) == KeptSum(cs, Dated, CountOf)
  {
    GroupSumAt(cs, Dated, DayOf, CountOf, day);
    GroupSumTotal(cs, Dated, DayOf, CountOf);
  }

  /** The dated contributions count at most all of them, and exactly all of them when
      every contribution has a date. */
  lemma {:induction false} DatedTotal(cs: seq<Contribution>)
    ensures 0 <= KeptSum(cs, Dated, CountOf) <= SumCounts(cs)
    ensures (forall c <- cs :: Dated(c)) ==> KeptSum(cs, Dated, CountOf) == SumCounts(cs)
    decreases |cs|
  {
    if cs != [] {
      assert forall c <- cs[..|cs| - 1] :: c in cs;
      DatedTotal(cs[..|cs| - 1]);
    }
  }

  // ---------------------------------------------------------------------------
  // Colour bands

  const NoActivity: string := "bg-gray-800"
  const LowActivity: string := "bg-green-900"
  const MediumActivity: string := "bg-green-700"
  const HighActivity: string := "bg-green-500"
  const TopActivity: string := "bg-green-300"

  /** The bands from no activity up to the most active. */
  const Bands: seq<string> := [NoActivity, LowActivity, MediumActivity, HighActivity, TopActivity]

  /** Index in `Bands` of a day's count: 0 for none, then up to 2, up to 5, up to 10,
      and above. */
  function BandIndex(count: int): (b: nat)
    ensures b < |Bands|
    ensures b == 0 <==> count == 0
    ensures b == 1 <==> count != 0 && count <= 2
    ensures b == 2 <==> 3 <= count <= 5
    ensures b == 3 <==> 6 <= count <= 10
    ensures b == 4 <==> count > 10
  {
    if count == 0 then 0
    else if count <= 2 then 1
    else if count <= 5 then 2
    else if count <= 10 then 3
    else 4
  }

  /** getIntensity: the colour class of a day with `count` contributions. */
  function Intensity(count: int): (cls: string)
    ensures cls == Bands[BandIndex(count)]
  {
    if count == 0 then NoActivity
    else if count <= 2 then LowActivity
    else if count <= 5 then MediumActivity
    else if count <= 10 then HighActivity
    else TopActivity
  }

  /** More contributions never give a paler band. */
  lemma BandMonotone(a: int, b: int)
    requires 0 <= a <= b
    ensures BandIndex(a) <= BandIndex(b)
  {
  }

  /** A day without contributions is looked up as 0 and shown in the empty colour. */
  lemma AbsentDayIsEmpty(cs: seq<Contribution>, day: string)
    requires day !in ContributionsByDate(cs)
    ensures Intensity(Lookup(ContributionsByDate(cs), day)) == NoActivity
  {
  }

  // ---------------------------------------------------------------------------
  // Details of one day

  datatype ContributionDetail = ContributionDetail(kind: string, repo: string, count: int)

  const UnknownKind: string := "Unknown"
  const UnknownRepo: string := "unknown"

  /** `(c.type || 'Unknown').replace('Event', '')`, `(c.repo || 'unknown').split('/').pop()
      || 'unknown'` and the count. */
  function DetailOf(c: Contribution): ContributionDetail {
    var kind := if c.kind == "" then UnknownKind else c.kind;
    var repo := if c.repo == "" then UnknownRepo else c.repo;
    var name := AfterLast(repo, '/');
    ContributionDetail(RemoveFirst(kind, "Event"), if name == "" then UnknownRepo else name, c.count)
  }

  /** The type loses its first "Event" ("Unknown" stands for no type); the repository is
      the name after the owner, never empty and without '/'; the count is copied. */
  lemma DetailOfSpec(c: Contribution)
    ensures DetailOf(c).kind == RemoveFirst(if c.kind == "" then UnknownKind else c.kind, "Event")
    ensures DetailOf(c).repo != "" && '/' !in DetailOf(c).repo
    ensures c.repo != "" && AfterLast(c.repo, '/') != "" ==> DetailOf(c).repo == AfterLast(c.repo, '/')
    ensures c.repo == "" || AfterLast(c.repo, '/') == "" ==> DetailOf(c).repo == UnknownRepo
    ensures DetailOf(c).count == c.count
  {
    assert '/' !in UnknownRepo;
  }

  /** The contribution is listed under `day`: its date starts with the day and its count
      is positive. */
  predicate ListedOn(c: Contribution, day: string) {
    StartsWith(c.date, day) && c.count > 0
  }

  /** getContributionDetails: the details of the contributions listed under `day`, in
      input order. */
  function ContributionDetails(cs: seq<Contribution>, day: string): (ds: seq<ContributionDetail>)
    ensures |ds| <= |cs|
    ensures forall d <- ds :: exists c <- cs :: ListedOn(c, day) && d == DetailOf(c)
    ensures forall c <- cs :: ListedOn(c, day) ==> DetailOf(c) in ds
  {
    FilterMap(cs, c => ListedOn(c, day), DetailOf)
  }

  /** Every listed detail has a positive count. */
  lemma DetailsPositive(cs: seq<Contribution>, day: string)
    ensures forall d <- ContributionDetails(cs, day) :: d.count > 0
  {
    forall d <- ContributionDetails(cs, day) ensures d.count > 0 {
      var c :| c in cs && ListedOn(c, day) && d == DetailOf(c);
      DetailOfSpec(c);
    }
  }

  /** The details keep the input order: listing distributes over concatenation. */
  lemma ContributionDetailsAppend(a: seq<Contribution>, b: seq<Contribution>, day: string)
    ensures ContributionDetails(a + b, day) == ContributionDetails(a, day) + ContributionDetails(b, day)
  {
    FilterMapAppend(a, b, c => ListedOn(c, day), DetailOf);
  }

  // ---------------------------------------------------------------------------
  // The grid

  const Weeks: nat := 52
  const DaysPerWeek: nat := 7

  /** How many days before today the cell of week `w`, weekday `d` shows. */
  function DaysBack(w: int, d: int): int {
    (Weeks - 1 - w) * DaysPerWeek + (DaysPerWeek - 1 - d)
  }

  /** The 52 weeks of 7 days, each cell holding its distance in days from today. */
  function CalendarGrid(): (grid: seq<seq<int>>)
    ensures |grid| == Weeks
    ensures forall w :: 0 <= w < Weeks ==> |grid[w]| == DaysPerWeek
    ensures forall w, d :: 0 <= w < Weeks && 0 <= d < DaysPerWeek ==> grid[w][d] == DaysBack(w, d)
  {
    seq(Weeks, w requires 0 <= w < Weeks => seq(DaysPerWeek, d requires 0 <= d < DaysPerWeek => DaysBack(w, d)))
  }

  /** Every cell shows one of the last 364 days, the last cell shows today, and a cell
      further on shows a later day. */
  lemma GridOrder(w1: int, d1: int, w2: int, d2: int)
    requires 0 <= w1 < Weeks && 0 <= d1 < DaysPerWeek
    requires 0 <= w2 < Weeks && 0 <= d2 < DaysPerWeek
    ensures 0 <= DaysBack(w1, d1) < Weeks * DaysPerWeek
    ensures DaysBack(Weeks - 1, DaysPerWeek - 1) == 0
    ensures (w1, d1) != (w2, d2) ==> DaysBack(w1, d1) != DaysBack(w2, d2)
    ensures w1 < w2 || (w1 == w2 && d1 < d2) ==> DaysBack(w1, d1) > DaysBack(w2, d2)
  {
  }

  /** Each of the last 364 days, today included, has a cell. */
  lemma GridCoversYear(n: int)
    requires 0 <= n < Weeks * DaysPerWeek
    ensures exists w, d :: 0 <= w < Weeks && 0 <= d < DaysPerWeek && CalendarGrid()[w][d] == n
  {
    var w, d := Weeks - 1 - n / DaysPerWeek, DaysPerWeek - 1 - n % DaysPerWeek;
    assert CalendarGrid()[w][d] == n;
  }
}
