/** The figures drawn on the shareable image (src/components/ShareImage.tsx): the
    holiday emoji and comment of a score, the three leading languages, and the copied
    and counted statistics. */
module ShareImage {
  import opened Types
  import opened Folds
  import opened Sorting
  import opened Rounding
  import opened GitHubStats

  // ---------------------------------------------------------------------------
  // Holiday emoji and comment

  const ChristmasTree: string := "\U{1F384}"
  const SantaClaus: string := "\U{1F385}"
  const WrappedGift: string := "\U{1F381}"
  const Snowman: string := "⛄"
  const Snowflake: string := "❄️"
  const Deer: string := "\U{1F98C}"
  const Bell: string := "\U{1F514}"

  const FavoriteComment: string := "Santa's Favorite Developer!"
  const StarComment: string := "Christmas Star Coder!"
  const ElfComment: string := "Coding Like An Elf!"
  const NiceListComment: string := "Nice List Material!"
  const WarmerComment: string := "Getting Warmer!"
  const CoalComment: string := "Coal-ding Skills Need Work!"
  const MiracleComment: string := "Time for a Christmas Miracle!"

  /** The lower bounds of the bands, best band first; below the last is the fallback. */
  const Thresholds: seq<int> := [90, 80, 70, 60, 50, 40]

  const HolidayEmojis: seq<string> := [ChristmasTree, SantaClaus, WrappedGift, Snowman, Snowflake, Deer, Bell]

  const HolidayComments: seq<string> :=
    [FavoriteComment, StarComment, ElfComment, NiceListComment, WarmerComment, CoalComment, MiracleComment]

  /** The band of a score: the first threshold it reaches, or 6 below all of them. */
  function Band(score: int): (b: nat)
    ensures b <= |Thresholds|
    ensures b < |Thresholds| ==> score >= Thresholds[b]
    ensures forall j :: 0 <= j < b ==> score < Thresholds[j]
  {
    if score >= 90 then 0
    else if score >= 80 then 1
    else if score >= 70 then 2
    else if score >= 60 then 3
    else if score >= 50 then 4
    else if score >= 40 then 5
    else 6
  }

  /** getHolidayEmoji. */
  function HolidayEmoji(score: int): (e: string)
    ensures e == HolidayEmojis[Band(score)]
  {
    if score >= 90 then ChristmasTree
    else if score >= 80 then SantaClaus
    else if score >= 70 then WrappedGift
    else if score >= 60 then Snowman
    else if score >= 50 then Snowflake
    else if score >= 40 then Deer
    else Bell
  }

  /** getHolidayComment. */
  function HolidayComment(score: int): (c: string)
    ensures c == HolidayComments[Band(score)]
  {
    if score >= 90 then FavoriteComment
    else if score >= 80 then StarComment
    else if score >= 70 then ElfComment
    else if score >= 60 then NiceListComment
    else if score >= 50 then WarmerComment
    else if score >= 40 then CoalComment
    else MiracleComment
  }

  /** No two bands share an emoji or a comment. */
  lemma BandTextsDistinct(i: nat, j: nat)
    requires i < |HolidayEmojis| && j < |HolidayEmojis| && i != j
    ensures HolidayEmojis[i] != HolidayEmojis[j]
    ensures HolidayComments[i] != HolidayComments[j]
  {
    assert HolidayEmojis[i][0] != HolidayEmojis[j][0];
    assert (HolidayComments[i][0], HolidayComments[i][2]) != (HolidayComments[j][0], HolidayComments[j][2]);
  }

  /** Two scores get the same comment exactly when they get the same emoji, which is
      exactly when they fall in the same band. */
  lemma SameCommentIffSameEmoji(a: int, b: int)
    ensures HolidayComment(a) == HolidayComment(b) <==> Band(a) == Band(b)
    ensures HolidayEmoji(a) == HolidayEmoji(b) <==> Band(a) == Band(b)
  {
    if Band(a) != Band(b) {
      BandTextsDistinct(Band(a), Band(b));
    }
  }

  // ---------------------------------------------------------------------------
  // The three leading languages

  datatype LanguageShare = LanguageShare(name: string, percentage: int)

  function PercentageOf(s: LanguageShare): int { s.percentage }

  /** `names` lists each language once. */
  predicate DistinctNames(names: seq<string>) {
    forall i, j :: 0 <= i < j < |names| ==> names[i] != names[j]
  }

  /** The languages of a list of shares, in order. */
  function NamesOf(shares: seq<LanguageShare>): (names: seq<string>)
    ensures |names| == |shares|
    ensures forall i :: 0 <= i < |shares| ==> names[i] == shares[i].name
  {
    seq(|shares|, i requires 0 <= i < |shares| => shares[i].name)
  }

  /** `names` lists exactly the keys of `counts`. */
  ghost predicate ListsKeys(counts: map<string, int>, names: seq<string>) {
    forall k :: k in names <==> k in counts
  }

  /** Every language counts at least one repository. */
  predicate PositiveCounts(counts: map<string, int>) {
    forall k :: k in counts ==> counts[k] >= 1
  }

  /** Some share in `shares` is for language `k`. */
  ghost predicate Listed(shares: seq<LanguageShare>, k: string) {
    exists i :: 0 <= i < |shares| && shares[i].name == k
  }

  /** The entries of a profile's `topLanguages`, in the order its repositories first name
      them, meet what the image asks of them. */
  lemma ProfileLanguages(repos: seq<Repository>)
    ensures DistinctNames(DistinctKeys(repos, HasLanguage, LanguageOf))
    ensures ListsKeys(LanguageCounts(repos), DistinctKeys(repos, HasLanguage, LanguageOf))
    ensures PositiveCounts(LanguageCounts(repos))
  {
    forall k ensures k in DistinctKeys(repos, HasLanguage, LanguageOf) <==> k in LanguageCounts(repos) {
      GroupSumAt(repos, HasLanguage, LanguageOf, OneRepository, k);
    }
    GroupSumPositive(repos, HasLanguage, LanguageOf, OneRepository);
  }

  /** `Math.round((count / total) * 100)` for each language, in entry order. */
  function Shares(counts: map<string, int>, names: seq<string>, total: int): (shares: seq<LanguageShare>)
    requires total > 0
    ensures |shares| == |names|
    ensures forall i :: 0 <= i < |names| ==>
      shares[i] == LanguageShare(names[i], RoundDiv(Lookup(counts, names[i]) * 100, total))
  {
    seq(|names|, i requires 0 <= i < |names| => LanguageShare(names[i], RoundDiv(Lookup(counts, names[i]) * 100, total)))
  }

  /** The entry-order sum of the counts is their sum, and each count lies between 1 and
      that sum. */
  lemma TotalOfCounts(counts: map<string, int>, names: seq<string>)
    requires DistinctNames(names) && ListsKeys(counts, names) && PositiveCounts(counts)
    requires names != []
    ensures SumOver(counts, names) == MapSum(counts) > 0
    ensures forall k :: k in counts ==> 1 <= counts[k] <= MapSum(counts)
  {
    SumOverAllKeys(counts, names);
    forall k | k in counts ensures counts[k] <= MapSum(counts) {
      ValueAtMostMapSum(counts, k);
    }
    assert names[0] in counts;
  }

  /** The share of language `k`: its count as a rounded percentage of all counts. */
  ghost function ShareOf(counts: map<string, int>, k: string): LanguageShare
    requires k in counts && MapSum(counts) > 0
  {
    LanguageShare(k, RoundDiv(counts[k] * 100, MapSum(counts)))
  }

  /** `s` is the share of its language, a percentage from 0 to 100. */
  ghost predicate IsShare(counts: map<string, int>, s: LanguageShare) {
    s.name in counts && MapSum(counts) > 0 && s == ShareOf(counts, s.name) && 0 <= s.percentage <= 100
  }

  /** Whatever the order of the shares, each one is the share of its language, and each
      language has one. */
  lemma PermutedShares(counts: map<string, int>, names: seq<string>, sorted: seq<LanguageShare>)
    requires DistinctNames(names) && ListsKeys(counts, names) && PositiveCounts(counts)
    requires names != [] && MapSum(counts) > 0
    requires multiset(sorted) == multiset(Shares(counts, names, MapSum(counts)))
    ensures |sorted| == |names|
    ensures forall s <- sorted :: IsShare(counts, s)
    ensures forall k :: k in counts ==> ShareOf(counts, k) in sorted
  {
    TotalOfCounts(counts, names);
    var total := MapSum(counts);
    var shares := Shares(counts, names, total);
    assert |multiset(sorted)| == |multiset(shares)|;
    forall s <- sorted ensures IsShare(counts, s) {
      assert s in multiset(shares);
      var i :| 0 <= i < |shares| && shares[i] == s;
      assert names[i] in names;
      RoundDivBounds(counts[s.name] * 100, total, 100);
    }
    forall k | k in counts ensures ShareOf(counts, k) in sorted {
      var i :| 0 <= i < |names| && names[i] == k;
      assert shares[i] in multiset(sorted);
    }
  }

  /** In a sequence without repeats, every element occurs at most once. */
  lemma {:induction false} DistinctOnce<T>(s: seq<T>, x: T)
    requires forall i, j :: 0 <= i < j < |s| ==> s[i] != s[j]
    ensures multiset(s)[x] <= 1
    decreases |s|
  {
    if s != [] {
      var front, last := s[..|s| - 1], s[|s| - 1];
      forall k | 0 <= k < |front| ensures front[k] != last {
        assert front[k] == s[k];
      }
      DistinctOnce(front, x);
      assert s == front + [last];
    }
  }

  /** An element found at two positions occurs at least twice. */
  lemma RepeatedTwice<T>(s: seq<T>, i: nat, j: nat)
    requires i < j < |s| && s[i] == s[j]
    ensures multiset(s)[s[i]] >= 2
  {
    assert s == s[..j] + [s[j]] + s[j + 1..];
    assert s[..j][i] == s[i];
  }

  /** However the shares are reordered, no language appears twice. */
  lemma SharesNamedOnce(counts: map<string, int>, names: seq<string>, sorted: seq<LanguageShare>)
    requires DistinctNames(names) && ListsKeys(counts, names) && PositiveCounts(counts)
    requires names != [] && MapSum(counts) > 0
    requires multiset(sorted) == multiset(Shares(counts, names, MapSum(counts)))
    ensures DistinctNames(NamesOf(sorted))
  {
    PermutedShares(counts, names, sorted);
    var shares := Shares(counts, names, MapSum(counts));
    assert forall k, l :: 0 <= k < l < |shares| ==> shares[k] != shares[l] by {
      forall k, l | 0 <= k < l < |shares| ensures shares[k] != shares[l] {
        assert shares[k].name == names[k] && shares[l].name == names[l];
      }
    }
    var ns := NamesOf(sorted);
    forall i, j | 0 <= i < j < |ns| ensures ns[i] != ns[j] {
      if sorted[i].name == sorted[j].name {
        assert IsShare(counts, sorted[i]) && IsShare(counts, sorted[j]);
        RepeatedTwice(sorted, i, j);
        DistinctOnce(shares, sorted[i]);
        assert false;
      }
    }
  }

  /** A prefix of shares naming distinct languages names distinct languages. */
  lemma PrefixNamedOnce(shares: seq<LanguageShare>, n: nat)
    requires DistinctNames(NamesOf(shares)) && n <= |shares|
    ensures DistinctNames(NamesOf(shares[..n]))
  {
    assert forall i :: 0 <= i < n ==> NamesOf(shares[..n])[i] == NamesOf(shares)[i];
  }

  /** A prefix of a sorted sequence is sorted. */
  lemma SortedPrefix(sorted: seq<LanguageShare>, n: nat)
    requires SortedDescBy(sorted, PercentageOf) && n <= |sorted|
    ensures SortedDescBy(sorted[..n], PercentageOf)
  {
    assert forall i :: 0 <= i < n ==> sorted[..n][i] == sorted[i];
  }

  /** The first three of the sorted shares are shares, and a language left out has no
      larger percentage than the last one kept. */
  lemma LeadingShares(counts: map<string, int>, names: seq<string>, sorted: seq<LanguageShare>, n: nat)
    requires DistinctNames(names) && ListsKeys(counts, names) && PositiveCounts(counts)
    requires names != [] && MapSum(counts) > 0
    requires multiset(sorted) == multiset(Shares(counts, names, MapSum(counts)))
    requires SortedDescBy(sorted, PercentageOf)
    requires n == if |sorted| < 3 then |sorted| else 3
    ensures forall s <- sorted[..n] :: IsShare(counts, s)
    ensures forall k :: k in counts && !Listed(sorted[..n], k) ==>
      n > 0 && ShareOf(counts, k).percentage <= sorted[n - 1].percentage
  {
    PermutedShares(counts, names, sorted);
    var top := sorted[..n];
    assert forall s <- top :: s in sorted;
    assert forall i :: 0 <= i < n ==> top[i] == sorted[i];
    forall k | k in counts && !Listed(top, k)
      ensures n > 0 && ShareOf(counts, k).percentage <= sorted[n - 1].percentage
    {
      LeftOutShare(sorted, n, ShareOf(counts, k));
    }
  }

  /** A share of the sorted list that is not among the first `n` has no larger
      percentage than the last of them. */
  lemma LeftOutShare(sorted: seq<LanguageShare>, n: nat, x: LanguageShare)
    requires SortedDescBy(sorted, PercentageOf)
    requires n == if |sorted| < 3 then |sorted| else 3
    requires x in sorted && !Listed(sorted[..n], x.name)
    ensures n > 0 && x.percentage <= sorted[n - 1].percentage
  {
    var p :| 0 <= p < |sorted| && sorted[p] == x;
    assert forall i :: 0 <= i < n ==> sorted[..n][i] == sorted[i];
    assert sorted[p].name == x.name;
    assert PercentageOf(sorted[n - 1]) >= PercentageOf(sorted[p]);
  }

  /** The top-language list: the shares sorted by percentage, highest first, and cut
      after three. Each is the rounded percentage of its language among all counted
      repositories, and a language left out has no larger percentage than the last one
      listed. */
  function TopLanguages(counts: map<string, int>, names: seq<string>): (top: seq<LanguageShare>)
    requires DistinctNames(names) && ListsKeys(counts, names) && PositiveCounts(counts)
    ensures |top| == if |names| < 3 then |names| else 3
    ensures SortedDescBy(top, PercentageOf)
    ensures DistinctNames(NamesOf(top))
    ensures forall s <- top :: IsShare(counts, s)
    ensures forall k :: k in counts && !Listed(top, k) ==>
      top != [] && MapSum(counts) > 0 && ShareOf(counts, k).percentage <= top[|top| - 1].percentage
  {
    if names == [] then
      assert forall k :: k !in counts;
      []
    else
      TotalOfCounts(counts, names);
      var sorted := SortDescBy(Shares(counts, names, SumOver(counts, names)), PercentageOf);
      var n := if |sorted| < 3 then |sorted| else 3;
      LeadingShares(counts, names, sorted, n);
      SortedPrefix(sorted, n);
      SharesNamedOnce(counts, names, sorted);
      PrefixNamedOnce(sorted, n);
      sorted[..n]
  }

  // ---------------------------------------------------------------------------
  // Counted and copied statistics

  const PullRequestKind: string := "PullRequestEvent"

  /** `totalPRs`: the contributions of type PullRequestEvent. */
  function TotalPRs(cs: seq<Contribution>): (n: nat)
    ensures n <= |cs|
    decreases |cs|
  {
    if cs == [] then 0 else (if cs[0].kind == PullRequestKind then 1 else 0) + TotalPRs(cs[1..])
  }

  /** The pull-request events among the raw events. */
  function PullRequestEvents(events: seq<RawEvent>): nat
    decreases |events|
  {
    if events == [] then 0 else (if events[0].kind == PullRequestKind then 1 else 0) + PullRequestEvents(events[1..])
  }

  /** Processing the events keeps every pull request: the image counts as many as the
      events payload holds. */
  lemma {:induction false} PullRequestsSurviveProcessing(events: seq<RawEvent>)
    ensures TotalPRs(ProcessContributions(events)) == PullRequestEvents(events)
    decreases |events|
  {
    if events != [] {
      var e := events[0];
      PullRequestsSurviveProcessing(events[1..]);
      var rest := ProcessContributions(events[1..]);
      assert IsTracked(PullRequestKind) by {
        assert TrackedKinds[1] == PullRequestKind;
      }
      if IsTracked(e.kind) {
        var out := [ToContribution(e)] + rest;
        assert ProcessContributions(events) == out;
        assert out[0] == ToContribution(e) && out[1..] == rest;
      } else {
        assert ProcessContributions(events) == rest;
      }
    }
  }

  /** The repository names occurring among the contributions. */
  function RepoNames(cs: seq<Contribution>): set<string> {
    set c <- cs :: c.repo
  }

  /** `activeRepos`: the number of distinct repository names, between 1 and the number
      of contributions when there are any. */
  function ActiveRepos(cs: seq<Contribution>): (n: nat)
    ensures n == |RepoNames(cs)|
    ensures n <= |cs|
    ensures cs != [] ==> n >= 1
  {
    RepoNamesBound(cs);
    |RepoNames(cs)|
  }

  lemma {:induction false} RepoNamesBound(cs: seq<Contribution>)
    ensures |RepoNames(cs)| <= |cs|
    ensures cs != [] ==> |RepoNames(cs)| >= 1
    decreases |cs|
  {
    if cs != [] {
      var front := cs[..|cs| - 1];
      RepoNamesBound(front);
      assert RepoNames(cs) == RepoNames(front) + {cs[|cs| - 1].repo} by {
        assert cs == front + [cs[|cs| - 1]];
      }
    }
  }

  datatype ImageStats = ImageStats(commits: int, streak: int, repos: int, stars: int)

  datatype ActivityStats = ActivityStats(bestStreak: int, totalPRs: nat, activeRepos: nat)

  /** The figures of the image: commits, streak, repositories and stars are copied from
      the statistics, and the best streak is the streak again. */
  function ImageStatsOf(stats: ProfileStats): (r: ImageStats)
    ensures r.commits == stats.totalContributions && r.streak == stats.contributionStreak
    ensures r.repos == stats.totalRepos && r.stars == stats.totalStars
  {
    ImageStats(stats.totalContributions, stats.contributionStreak, stats.totalRepos, stats.totalStars)
  }

  function ActivityStatsOf(stats: ProfileStats): (r: ActivityStats)
    ensures r.bestStreak == ImageStatsOf(stats).streak
    ensures r.totalPRs <= |stats.contributions| && r.activeRepos <= |stats.contributions|
    ensures r.totalPRs == TotalPRs(stats.contributions) && r.activeRepos == |RepoNames(stats.contributions)|
  {
    ActivityStats(stats.contributionStreak, TotalPRs(stats.contributions), ActiveRepos(stats.contributions))
  }
}
