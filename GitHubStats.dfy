/** From public events to contributions, and from repositories and contributions to
    profile statistics (src/services/github.ts: processContributions, calculateStats,
    calculateContributionStreak).

    Dates are ISO strings; `ts` stands for `new Date(text).getTime()`, a timestamp in
    milliseconds. Cutoffs such as "one year ago" are computed by the caller. */
module GitHubStats {
  import opened Types
  import opened Folds
  import opened Sorting
  import opened Rounding

  /** An event of the events payload: `type`, `repo.name`, `created_at`, and the length
      of `payload.commits` when that array is present. */
  datatype RawEvent = RawEvent(kind: string, repoName: string, createdAt: string, commits: Option<nat>)

  const TrackedKinds: seq<string> := ["PushEvent", "PullRequestEvent", "IssuesEvent", "CreateEvent"]

  predicate IsTracked(kind: string) {
    kind in TrackedKinds
  }

  /** A push counts its commits (`payload.commits?.length || 1`, so a missing or empty
      list counts 1); every other kept event counts 1. */
  function ToContribution(e: RawEvent): (c: Contribution)
    ensures c.kind == e.kind && c.repo == e.repoName && c.date == e.createdAt
    ensures c.count >= 1
    ensures c.count != 1 <==> e.kind == "PushEvent" && e.commits.Some? && e.commits.value > 1
    ensures e.kind == "PushEvent" && e.commits.Some? && e.commits.value > 0 ==> c.count == e.commits.value
  {
    var count :=
      if e.kind == "PushEvent" then
        match e.commits
        case Some(n) => if n != 0 then n else 1
        case None => 1
      else 1;
    Contribution(e.kind, e.repoName, e.createdAt, count)
  }

  /** Keeps pushes, pull requests, issues and creations, in input order, and maps each
      to a contribution. */
  function ProcessContributions(events: seq<RawEvent>): (r: seq<Contribution>)
    ensures |r| <= |events|
    ensures forall c <- r :: IsTracked(c.kind) && c.count >= 1
    ensures forall c <- r :: exists e <- events :: IsTracked(e.kind) && c == ToContribution(e)
    ensures forall e <- events :: IsTracked(e.kind) ==> ToContribution(e) in r
    decreases |events|
  {
    if events == [] then []
    else
      var e := events[0];
      var rest := ProcessContributions(events[1..]);
      var r := (if IsTracked(e.kind) then [ToContribution(e)] else []) + rest;
      assert events == [e] + events[1..];
      assert forall c <- rest :: c in r;
      assert forall c <- r :: c in rest || (IsTracked(e.kind) && c == ToContribution(e));
      r
  }

  /** Processing distributes over concatenation: the output keeps the input's order. */
  lemma {:induction false} ProcessContributionsAppend(a: seq<RawEvent>, b: seq<RawEvent>)
    ensures ProcessContributions(a + b) == ProcessContributions(a) + ProcessContributions(b)
    decreases |a|
  {
    if a != [] {
      var head := if IsTracked(a[0].kind) then [ToContribution(a[0])] else [];
      assert (a + b)[0] == a[0];
      assert (a + b)[1..] == a[1..] + b;
      ProcessContributionsAppend(a[1..], b);
      calc {
        ProcessContributions(a + b);
        head + ProcessContributions(a[1..] + b);
        head + (ProcessContributions(a[1..]) + ProcessContributions(b));
        (head + ProcessContributions(a[1..])) + ProcessContributions(b);
        ProcessContributions(a) + ProcessContributions(b);
      }
    } else {
      assert a + b == b;
    }
  }

  // ---------------------------------------------------------------------------
  // Repository statistics

  predicate AnyRepository(r: Repository) { true }
  function StarsOf(r: Repository): int { r.stars }
  function ForksOf(r: Repository): int { r.forks }
  function OneRepository(r: Repository): int { 1 }

  /** `if (repo.language)`: null and the empty string are falsy. */
  predicate HasLanguage(r: Repository) {
    r.language.Some? && r.language.value != ""
  }

  function LanguageOf(r: Repository): string {
    if r.language.Some? then r.language.value else ""
  }

  function SumStars(repos: seq<Repository>): int { KeptSum(repos, AnyRepository, StarsOf) }
  function SumForks(repos: seq<Repository>): int { KeptSum(repos, AnyRepository, ForksOf) }

  /** Number of repositories that name a language. */
  function ReposWithLanguage(repos: seq<Repository>): int { KeptSum(repos, HasLanguage, OneRepository) }

  /** Number of repositories whose language is `lang`. */
  function ReposInLanguage(repos: seq<Repository>, lang: string): int {
    KeySum(repos, HasLanguage, LanguageOf, OneRepository, lang)
  }

  /** `topLanguages`: repositories per non-empty language. */
  function LanguageCounts(repos: seq<Repository>): map<string, int> {
    GroupSum(repos, HasLanguage, LanguageOf, OneRepository)
  }

  /** `topLanguages` has a key exactly for each language some repository names, with the
      number of repositories in that language, and its values add up to the number of
      repositories that name a language. */
  lemma TopLanguagesSpec(repos: seq<Repository>, lang: string)
    ensures lang in LanguageCounts(repos) <==> exists i :: 0 <= i < |repos| && HasLanguage(repos[i]) && LanguageOf(repos[i]) == lang
    ensures lang in LanguageCounts(repos) ==> LanguageCounts(repos)[lang] == ReposInLanguage(repos, lang)
    ensures "" !in LanguageCounts(repos)
    ensures MapSum(LanguageCounts(repos)) == ReposWithLanguage(repos)
  {
    GroupSumAt(repos, HasLanguage, LanguageOf, OneRepository, lang);
    GroupSumAt(repos, HasLanguage, LanguageOf, OneRepository, "");
    GroupSumTotal(repos, HasLanguage, LanguageOf, OneRepository);
  }

  /** Sum of the counts of contributions dated strictly after `cutoff`
      (`filter(c => new Date(c.date) > cutoff).reduce(sum + c.count)`). */
  function SumAfter(cs: seq<Contribution>, ts: string -> int, cutoff: int): (total: int)
    ensures 0 <= total <= SumCounts(cs)
    ensures (forall c <- cs :: ts(c.date) > cutoff) ==> total == SumCounts(cs)
    ensures (forall c <- cs :: ts(c.date) <= cutoff) ==> total == 0
    decreases |cs|
  {
    if cs == [] then 0
    else
      var last := cs[|cs| - 1];
      assert forall c <- cs[..|cs| - 1] :: c in cs;
      SumAfter(cs[..|cs| - 1], ts, cutoff) + (if ts(last.date) > cutoff then last.count else 0)
  }

  // ---------------------------------------------------------------------------
  // Contribution streak

  /** `1000 * 60 * 60 * 24` milliseconds. */
  const MsPerDay: int := 86_400_000

  /** The timestamps of the contributions, in input order. */
  function Times(cs: seq<Contribution>, ts: string -> int): (t: seq<int>)
    ensures |t| == |cs|
    ensures forall i :: 0 <= i < |cs| ==> t[i] == ts(cs[i].date)
  {
    seq(|cs|, i requires 0 <= i < |cs| => ts(cs[i].date))
  }

  /** `Math.floor((later - earlier) / 86400000)`: whole days between two timestamps. */
  function DayGap(later: int, earlier: int): int {
    (later - earlier) / MsPerDay
  }

  /** Neighbours `s[k - 1]` and `s[k]` are at most one whole day apart, so a run continues. */
  predicate Linked(s: seq<int>, k: int)
    requires 0 < k < |s|
  {
    DayGap(s[k - 1], s[k]) <= 1
  }

  /** `s[lo..hi]` is a non-empty stretch in which every neighbour is linked. */
  predicate IsRun(s: seq<int>, lo: int, hi: int) {
    0 <= lo < hi <= |s| && forall k :: lo < k < hi ==> Linked(s, k)
  }

  /** Length of the longest run that ends at position `i`. */
  function RunEndingAt(s: seq<int>, i: nat): (n: nat)
    requires i < |s|
    ensures 1 <= n <= i + 1
    decreases i
  {
    if i == 0 then 1 else if Linked(s, i) then RunEndingAt(s, i - 1) + 1 else 1
  }

  /** Longest run ending before position `n`. */
  function LongestUpTo(s: seq<int>, n: nat): (m: nat)
    requires n <= |s|
    ensures m <= n
    ensures n > 0 ==> m >= 1
    decreases n
  {
    if n == 0 then 0 else Max(LongestUpTo(s, n - 1), RunEndingAt(s, n - 1))
  }

  function Max(a: int, b: int): int { if a >= b then a else b }

  function LongestRun(s: seq<int>): nat { LongestUpTo(s, |s|) }

  /** The streak of a list of contributions: the longest run in their timestamps sorted
      from newest to oldest. */
  function Streak(cs: seq<Contribution>, ts: string -> int): nat {
    LongestRun(SortDescBy(Times(cs, ts), Id))
  }

  /** The run counted by `RunEndingAt` is a run, and it cannot be extended to the left. */
  lemma {:induction false} RunEndingAtIsRun(s: seq<int>, i: nat)
    requires i < |s|
    ensures IsRun(s, i + 1 - RunEndingAt(s, i), i + 1)
    ensures i + 1 - RunEndingAt(s, i) > 0 ==> !Linked(s, i + 1 - RunEndingAt(s, i))
    decreases i
  {
    if i > 0 && Linked(s, i) {
      RunEndingAtIsRun(s, i - 1);
    }
  }

  /** No run ending at position `hi - 1` is longer than `RunEndingAt(s, hi - 1)`. */
  lemma {:induction false} RunEndingAtIsLongest(s: seq<int>, lo: int, hi: int)
    requires IsRun(s, lo, hi)
    ensures hi - lo <= RunEndingAt(s, hi - 1)
    decreases hi
  {
    if hi - lo > 1 {
      assert Linked(s, hi - 1);
      RunEndingAtIsLongest(s, lo, hi - 1);
    }
  }

  /** `LongestUpTo(s, n)` is the length of the longest run inside `s[..n]`. */
  lemma {:induction false} LongestUpToIsMaximum(s: seq<int>, n: nat)
    requires n <= |s|
    ensures n > 0 ==> exists lo, hi :: IsRun(s, lo, hi) && hi - lo == LongestUpTo(s, n) && hi <= n
    ensures forall lo, hi :: IsRun(s, lo, hi) && hi <= n ==> hi - lo <= LongestUpTo(s, n)
    decreases n
  {
    if n > 0 {
      LongestUpToIsMaximum(s, n - 1);
      RunEndingAtIsRun(s, n - 1);
      if LongestUpTo(s, n - 1) < RunEndingAt(s, n - 1) || n == 1 {
        var lo := n - RunEndingAt(s, n - 1);
        assert IsRun(s, lo, n) && n - lo == LongestUpTo(s, n);
      } else {
        var lo, hi :| IsRun(s, lo, hi) && hi - lo == LongestUpTo(s, n - 1) && hi <= n - 1;
        assert IsRun(s, lo, hi) && hi - lo == LongestUpTo(s, n) && hi <= n;
      }
      forall lo, hi | IsRun(s, lo, hi) && hi <= n ensures hi - lo <= LongestUpTo(s, n) {
        if hi == n {
          RunEndingAtIsLongest(s, lo, hi);
        }
      }
    }
  }

  /** The longest run: some run has this length and no run is longer. */
  lemma LongestRunIsMaximum(s: seq<int>)
    ensures s != [] ==> exists lo, hi :: IsRun(s, lo, hi) && hi - lo == LongestRun(s)
    ensures forall lo, hi :: IsRun(s, lo, hi) ==> hi - lo <= LongestRun(s)
  {
    LongestUpToIsMaximum(s, |s|);
  }

  /** calculateContributionStreak: sorts the timestamps newest first, then walks them
      keeping the current run and the longest run seen. */
  method ContributionStreak(cs: seq<Contribution>, ts: string -> int) returns (streak: nat)
    ensures streak == Streak(cs, ts)
  {
    var sorted := SortDescBy(Times(cs, ts), Id);
    var currentStreak: nat := 0;
    var maxStreak: nat := 0;
    var lastDate: Option<int> := None;
    var i := 0;
    while i < |sorted|
      invariant 0 <= i <= |sorted|
      invariant lastDate == if i == 0 then None else Some(sorted[i - 1])
      invariant i > 0 ==> currentStreak == RunEndingAt(sorted, i - 1)
      invariant maxStreak == LongestUpTo(sorted, i)
    {
      var currentDate := sorted[i];
      if lastDate.None? {
        currentStreak := 1;
      } else {
        var dayDifference := DayGap(lastDate.value, currentDate);
        assert dayDifference <= 1 <==> Linked(sorted, i);
        if dayDifference <= 1 {
          currentStreak := currentStreak + 1;
        } else {
          currentStreak := 1;
        }
      }
      maxStreak := Max(maxStreak, currentStreak);
      lastDate := Some(currentDate);
      i := i + 1;
    }
    streak := maxStreak;
  }

  /** The streak is 0 exactly for no contributions, and otherwise between 1 and their number. */
  lemma StreakBounds(cs: seq<Contribution>, ts: string -> int)
    ensures Streak(cs, ts) == 0 <==> cs == []
    ensures Streak(cs, ts) <= |cs|
  {
  }

  /** Removing the element at position `j` leaves the rest of the multiset. */
  lemma RemoveAt<T>(b: seq<T>, j: nat)
    requires j < |b|
    ensures multiset(b[..j] + b[j + 1..]) == multiset(b) - multiset{b[j]}
  {
    assert b == b[..j] + [b[j]] + b[j + 1..];
  }

  /** Dropping the contribution at position `j` drops its timestamp. */
  lemma TimesRemoveAt(b: seq<Contribution>, j: nat, ts: string -> int)
    requires j < |b|
    ensures multiset(Times(b, ts)) == multiset(Times(b[..j] + b[j + 1..], ts)) + multiset{ts(b[j].date)}
  {
    var t := Times(b, ts);
    var r := b[..j] + b[j + 1..];
    forall k | 0 <= k < |r| ensures Times(r, ts)[k] == (t[..j] + t[j + 1..])[k] {
      if k < j {
        assert r[k] == b[k];
      } else {
        assert r[k] == b[k + 1];
      }
    }
    assert Times(r, ts) == t[..j] + t[j + 1..];
    RemoveAt(t, j);
  }

  /** The timestamps of a non-empty list are the first one followed by those of the rest. */
  lemma TimesCons(a: seq<Contribution>, ts: string -> int)
    requires a != []
    ensures multiset(Times(a, ts)) == multiset{ts(a[0].date)} + multiset(Times(a[1..], ts))
  {
    assert Times(a, ts) == [ts(a[0].date)] + Times(a[1..], ts);
  }

  /** Reordering the contributions reorders their timestamps the same way. */
  lemma {:induction false} TimesPermutation(a: seq<Contribution>, b: seq<Contribution>, ts: string -> int)
    requires multiset(a) == multiset(b)
    ensures multiset(Times(a, ts)) == multiset(Times(b, ts))
    decreases |a|
  {
    if a == [] {
      assert |b| == |multiset(b)| == 0;
    } else {
      assert a[0] in multiset(b);
      var j :| 0 <= j < |b| && b[j] == a[0];
      MatchHead(a, b, j);
      TimesPermutation(a[1..], b[..j] + b[j + 1..], ts);
      TimesRemoveAt(b, j, ts);
      TimesCons(a, ts);
    }
  }

  /** Matching the head of `a` with `b[j]` leaves the same multiset on both sides. */
  lemma MatchHead<T>(a: seq<T>, b: seq<T>, j: nat)
    requires multiset(a) == multiset(b) && a != [] && j < |b| && b[j] == a[0]
    ensures multiset(a[1..]) == multiset(b[..j] + b[j + 1..])
  {
    assert a == [a[0]] + a[1..];
    RemoveAt(b, j);
  }

  /** The streak does not depend on the order of the contributions (they are sorted first). */
  lemma StreakPermutation(a: seq<Contribution>, b: seq<Contribution>, ts: string -> int)
    requires multiset(a) == multiset(b)
    ensures Streak(a, ts) == Streak(b, ts)
  {
    TimesPermutation(a, b, ts);
    SortedDescUnique(SortDescBy(Times(a, ts), Id), SortDescBy(Times(b, ts), Id));
  }

  // ---------------------------------------------------------------------------
  // The statistics record

  /** The figures calculateStats gives for the repositories and the contributions, with
      `oneYearAgo` the timestamp of the cutoff one year before now. */
  predicate StatsOf(stats: ProfileStats, repos: seq<Repository>, cs: seq<Contribution>, ts: string -> int, oneYearAgo: int) {
    && stats.totalRepos == |repos|
    && stats.totalStars == SumStars(repos) && stats.totalForks == SumForks(repos)
    && stats.topLanguages == LanguageCounts(repos)
    && stats.contributions == cs
    && stats.contributionStreak == Streak(cs, ts)
    && stats.totalContributions == SumCounts(cs)
    && stats.contributionsLastYear == SumAfter(cs, ts, oneYearAgo)
    && stats.averageContributionsPerWeek == RoundDiv(stats.contributionsLastYear, 52)
  }

  /** calculateStats: the repository totals are accumulated in one pass over the
      repositories; the contribution figures are computed from the contributions. */
  method CalculateStats(repos: seq<Repository>, cs: seq<Contribution>, ts: string -> int, oneYearAgo: int)
    returns (stats: ProfileStats)
    ensures StatsOf(stats, repos, cs, ts, oneYearAgo)
    ensures 0 <= stats.contributionsLastYear <= stats.totalContributions
  {
    var streak := ContributionStreak(cs, ts);
    var totalStars: nat := 0;
    var totalForks: nat := 0;
    var topLanguages: map<string, int> := map[];
    var i := 0;
    while i < |repos|
      invariant 0 <= i <= |repos|
      invariant totalStars == SumStars(repos[..i]) && totalForks == SumForks(repos[..i])
      invariant topLanguages == LanguageCounts(repos[..i])
    {
      var repo := repos[i];
      RepositoryStep(repos, i);
      totalStars := totalStars + repo.stars;
      totalForks := totalForks + repo.forks;
      if repo.language.Some? && repo.language.value != "" {
        var lang := repo.language.value;
        topLanguages := topLanguages[lang := Lookup(topLanguages, lang) + 1];
      }
      i := i + 1;
    }
    assert repos[..i] == repos;
    var lastYear := SumAfter(cs, ts, oneYearAgo);
    stats := ProfileStats(totalStars, totalForks, |repos|, topLanguages, lastYear, streak, cs,
                          SumCounts(cs), RoundDiv(lastYear, 52));
  }

  /** One more repository adds its stars and forks, and counts it under its language. */
  lemma RepositoryStep(repos: seq<Repository>, i: nat)
    requires i < |repos|
    ensures SumStars(repos[..i + 1]) == SumStars(repos[..i]) + repos[i].stars
    ensures SumForks(repos[..i + 1]) == SumForks(repos[..i]) + repos[i].forks
    ensures var m := LanguageCounts(repos[..i]);
      LanguageCounts(repos[..i + 1]) ==
        if HasLanguage(repos[i]) then m[LanguageOf(repos[i]) := Lookup(m, LanguageOf(repos[i])) + 1] else m
  {
    assert repos[..i + 1][..i] == repos[..i];
  }

  /** The weekly average is never negative and never exceeds the year's contributions. */
  lemma AverageBounds(cs: seq<Contribution>, ts: string -> int, oneYearAgo: int)
    ensures 0 <= RoundDiv(SumAfter(cs, ts, oneYearAgo), 52) <= SumAfter(cs, ts, oneYearAgo)
  {
    var n := SumAfter(cs, ts, oneYearAgo);
    RoundDivBounds(n, 52, n);
  }

  // ---------------------------------------------------------------------------
  // Streak examples

  /** Sorting timestamps that are already in descending order leaves them as they are. */
  lemma SortedTimes(cs: seq<Contribution>, ts: string -> int, s: seq<int>)
    requires SortedDescBy(s, Id) && multiset(Times(cs, ts)) == multiset(s)
    ensures SortDescBy(Times(cs, ts), Id) == s
  {
    SortedDescUnique(SortDescBy(Times(cs, ts), Id), s);
  }

  /** Contributions made at the same instant all extend one run: the scan counts
      contributions, not distinct days. */
  lemma StreakSameInstant(cs: seq<Contribution>, ts: string -> int, t: int)
    requires forall c <- cs :: ts(c.date) == t
    ensures Streak(cs, ts) == |cs|
  {
    var times := Times(cs, ts);
    var s := SortDescBy(times, Id);
    forall k | 0 <= k < |s| ensures s[k] == t {
      assert s[k] in multiset(times);
      var i :| 0 <= i < |times| && times[i] == s[k];
      assert cs[i] in cs;
    }
    forall k | 0 < k < |s| ensures Linked(s, k) {
      assert s[k - 1] == t && s[k] == t;
    }
    if |s| > 0 {
      assert IsRun(s, 0, |s|);
      LongestRunIsMaximum(s);
    }
  }

  /** Two timestamps in descending order form one run exactly when they are less than
      two whole days apart. */
  lemma LongestRunOfTwo(x: int, y: int)
    requires x >= y
    ensures LongestRun([x, y]) == if x - y < 2 * MsPerDay then 2 else 1
  {
    var s := [x, y];
    assert LongestUpTo(s, 1) == 1;
    assert DayGap(x, y) <= 1 <==> x - y < 2 * MsPerDay;
  }

  /** Two contributions whose timestamps are `x >= y` have the streak of `[x, y]`. */
  lemma StreakOfOrderedPair(cs: seq<Contribution>, ts: string -> int, x: int, y: int)
    requires x >= y && multiset(Times(cs, ts)) == multiset([x, y])
    ensures Streak(cs, ts) == if x - y < 2 * MsPerDay then 2 else 1
  {
    assert SortedDescBy([x, y], Id) by {
      assert Id(x) >= Id(y);
    }
    SortedTimes(cs, ts, [x, y]);
    LongestRunOfTwo(x, y);
  }

  /** Two contributions form one run exactly when they are less than 48 hours apart:
      the gap is floored to whole days before it is compared with 1. */
  lemma StreakOfTwo(c: Contribution, d: Contribution, ts: string -> int)
    ensures Streak([c, d], ts) == 2 <==> -2 * MsPerDay < ts(c.date) - ts(d.date) < 2 * MsPerDay
    ensures Streak([c, d], ts) != 2 ==> Streak([c, d], ts) == 1
  {
    var x, y := ts(c.date), ts(d.date);
    assert Times([c, d], ts) == [x, y];
    if x >= y {
      StreakOfOrderedPair([c, d], ts, x, y);
    } else {
      assert multiset([x, y]) == multiset([y, x]);
      StreakOfOrderedPair([c, d], ts, y, x);
    }
  }

  /** Runs in the timestamps of three consecutive days, and of the same days preceded
      by one a week later. */
  lemma LongestRunExample(t: int)
    ensures LongestRun([t + 2 * MsPerDay, t + MsPerDay, t]) == 3
    ensures LongestRun([t + 9 * MsPerDay, t + 2 * MsPerDay, t + MsPerDay, t]) == 3
  {
    var d := MsPerDay;
    var s3 := [t + 2 * d, t + d, t];
    var s4 := [t + 9 * d, t + 2 * d, t + d, t];
    assert Linked(s3, 1) && Linked(s3, 2);
    assert RunEndingAt(s3, 2) == 3;
    assert !Linked(s4, 1) && Linked(s4, 2) && Linked(s4, 3);
    assert RunEndingAt(s4, 1) == 1;
    assert RunEndingAt(s4, 3) == 3;
  }

  /** Three consecutive days make a streak of 3, and a contribution a week later does
      not extend it (listed newest first; the order does not matter, by
      `StreakPermutation`). */
  lemma StreakExample(cs: seq<Contribution>, ts: string -> int, t: int)
    requires |cs| == 4
    requires ts(cs[0].date) == t + 9 * MsPerDay && ts(cs[1].date) == t + 2 * MsPerDay
    requires ts(cs[2].date) == t + MsPerDay && ts(cs[3].date) == t
    ensures Streak(cs[1..], ts) == 3
    ensures Streak(cs, ts) == 3
  {
    var d := MsPerDay;
    var s3 := [t + 2 * d, t + d, t];
    var s4 := [t + 9 * d, t + 2 * d, t + d, t];
    assert Times(cs[1..], ts) == s3;
    assert Times(cs, ts) == s4;
    assert SortedDescBy(s3, Id) && SortedDescBy(s4, Id) by {
      assert Id(s4[0]) >= Id(s4[1]) >= Id(s4[2]) >= Id(s4[3]);
    }
    SortedTimes(cs[1..], ts, s3);
    SortedTimes(cs, ts, s4);
    LongestRunExample(t);
  }
}
