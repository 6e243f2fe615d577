/** The figures of the profile card (src/components/ProfileCard.tsx): the contributions
    of the last month, the most active repository and the most active day. */
module ProfileCard {
  import opened Types
  import opened Strings
  import opened Folds
  import opened Ranking
  import opened GitHubStats
  import opened ContributionCalendar

  /** `['No repos', 0]`, shown when no contribution names a repository. */
  const NoRepos: Entry := Entry("No repos", 0)

  /** `{ date: 'No data', count: 0 }`, shown when no contribution has a date. */
  const NoData: Entry := Entry("No data", 0)

  /** `if (c.repo)`: the empty repository name is skipped. */
  predicate HasRepo(c: Contribution) { c.repo != "" }

  function RepoOf(c: Contribution): string { c.repo }

  /** Sum of the counts of the contributions to `repo`. */
  function RepoTotal(cs: seq<Contribution>, repo: string): int {
    KeySum(cs, HasRepo, RepoOf, CountOf, repo)
  }

  /** Sum of the counts of the dated contributions on `day`. */
  function DayTotal(cs: seq<Contribution>, day: string): int {
    KeySum(cs, Dated, DayOf, CountOf, day)
  }

  /** getMostActiveRepo: a repository whose contributions add up to the most, as a
      `[name, total]` entry. */
  function MostActiveRepo(cs: seq<Contribution>): (top: Entry)
    ensures !SomeKept(cs, HasRepo) ==> top == NoRepos
    ensures SomeKept(cs, HasRepo) ==>
      top.key != "" && HasKey(cs, HasRepo, RepoOf, top.key) && top.count == RepoTotal(cs, top.key)
    ensures SomeKept(cs, HasRepo) ==>
      forall i :: 0 <= i < |cs| && cs[i].repo != "" ==> RepoTotal(cs, cs[i].repo) <= top.count
  {
    if cs == [] then NoRepos
    else
      var top := TopGroup(cs, HasRepo, RepoOf, CountOf);
      assert top.Some? ==> top.value.key != "" by {
        if top.Some? {
          var i :| 0 <= i < |cs| && HasRepo(cs[i]) && RepoOf(cs[i]) == top.value.key;
        }
      }
      assert forall i :: 0 <= i < |cs| && cs[i].repo != "" ==> HasKey(cs, HasRepo, RepoOf, cs[i].repo) by {
        forall i | 0 <= i < |cs| && cs[i].repo != "" ensures HasKey(cs, HasRepo, RepoOf, cs[i].repo) {
          assert HasRepo(cs[i]) && RepoOf(cs[i]) == cs[i].repo;
        }
      }
      match top
      case None => NoRepos
      case Some(e) => e
  }

  /** getBestContributionDay: a day (the date text before 'T') whose contributions add
      up to the most, with that total. */
  function BestContributionDay(cs: seq<Contribution>): (best: Entry)
    ensures !SomeKept(cs, Dated) ==> best == NoData
    ensures SomeKept(cs, Dated) ==>
      HasKey(cs, Dated, DayOf, best.key) && best.count == DayTotal(cs, best.key) && 'T' !in best.key
    ensures SomeKept(cs, Dated) ==>
      forall i :: 0 <= i < |cs| && cs[i].date != "" ==> DayTotal(cs, DayOf(cs[i])) <= best.count
  {
    if cs == [] then NoData
    else
      var top := TopGroup(cs, Dated, DayOf, CountOf);
      assert top.Some? ==> 'T' !in top.value.key by {
        if top.Some? {
          var i :| 0 <= i < |cs| && Dated(cs[i]) && DayOf(cs[i]) == top.value.key;
        }
      }
      assert forall i :: 0 <= i < |cs| && cs[i].date != "" ==> HasKey(cs, Dated, DayOf, DayOf(cs[i])) by {
        forall i | 0 <= i < |cs| && cs[i].date != "" ensures HasKey(cs, Dated, DayOf, DayOf(cs[i])) {
          assert Dated(cs[i]);
        }
      }
      match top
      case None => NoData
      case Some(e) => e
  }

  /** `mostActiveRepo.split('/')[1]`: the repository name without its owner; nothing is
      shown for a name without '/'. */
  function RepoLabel(repo: string): (shown: Option<string>)
    ensures shown.None? <==> '/' !in repo
    ensures shown.Some? ==> '/' !in shown.value
    ensures shown == SecondField(repo, '/')
  {
    SecondField(repo, '/')
  }

  /** The placeholder has no '/', so the card shows no repository name for it. */
  lemma NoReposLabelIsEmpty()
    ensures RepoLabel(NoRepos.key).None?
  {
    assert '/' !in NoRepos.key;
  }

  datatype CardStats = CardStats(recentTotal: int, mostActiveRepo: Entry, bestDay: Entry)

  /** getContributionStats: the total of the contributions dated after `oneMonthAgo`,
      which is at most the total of all contributions, with the two maxima. */
  function ContributionStats(cs: seq<Contribution>, ts: string -> int, oneMonthAgo: int): (r: CardStats)
    ensures r.recentTotal == SumAfter(cs, ts, oneMonthAgo)
    ensures 0 <= r.recentTotal <= SumCounts(cs)
    ensures r.mostActiveRepo == MostActiveRepo(cs) && r.bestDay == BestContributionDay(cs)
  {
    CardStats(SumAfter(cs, ts, oneMonthAgo), MostActiveRepo(cs), BestContributionDay(cs))
  }
}
