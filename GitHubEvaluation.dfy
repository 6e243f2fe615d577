/** The five-category scorer (src/services/github.ts: evaluateProfile and the
    evaluate* / getRepoQuality* helpers). Each category has a score from a fixed table,
    a comment and a recommendation, the empty string standing for "no recommendation".
    The clock of evaluateProjectMaintenance is the parameter `now`, and `ts` stands for
    `new Date(text).getTime()`. */
module GitHubEvaluation {
  import opened Types
  import opened Strings
  import opened Rounding
  import opened GitHubStats
  import opened Folds

  const QualityName: string := "Repository Quality"
  const ConsistencyName: string := "Code Consistency"
  const CommunityName: string := "Community Engagement"
  const MaintenanceName: string := "Project Maintenance"
  const ActivityName: string := "Contribution Activity"

  // ---------------------------------------------------------------------------
  // Texts. Each comment ends with an emoji; the texts are named once here.

  const RollerCoaster: string := "\U{1F3A2}"
  const Books: string := "\U{1F4DA}"
  const Car: string := "\U{1F697}"
  const OpenBook: string := "\U{1F4D6}"
  const HotBeverage: string := "\U{2615}"
  const Ring: string := "\U{1F48D}"
  const Joker: string := "\U{1F0CF}"
  const Globe: string := "\U{1F30E}"
  const Dancer: string := "\U{1F483}"
  const CatFace: string := "\U{1F431}"
  const WeightLifter: string := "\U{1F3CB}\U{FE0F}\U{200D}\U{2642}\U{FE0F}"
  const Desktop: string := "\U{1F5A5}\U{FE0F}"
  const Lightning: string := "\U{26A1}"
  const Salad: string := "\U{1F957}"
  const Fire: string := "\U{1F525}"
  const Necktie: string := "\U{1F454}"
  const Keyboard: string := "\U{2328}\U{FE0F}"
  const Biceps: string := "\U{1F4AA}"
  const Die: string := "\U{1F3B2}"

  const NoDocsNoTestsComment: string := "Documentation? Tests? Never heard of them! Living life on the edge! " + RollerCoaster
  const TestsOnlyComment: string := "Tests but no README? It's like having a book with no cover! " + Books
  const DocsOnlyComment: string := "Great README, but where are the tests? It's like a car with no airbags! " + Car
  const DocsAndTestsComment: string :=
    "Look at you, with your tests and documentation! Someone's been reading 'Clean Code'! " + OpenBook
  const NoDocsNoTestsAdvice: string := "Add some READMEs and tests - your future self will thank you!"
  const TestsOnlyAdvice: string := "Consider adding READMEs to help others understand your projects!"
  const DocsOnlyAdvice: string := "Adding tests would make your projects more reliable!"

  const NoLanguageComment: string := "Your profile is as empty as my coffee cup on Monday morning! " + HotBeverage
  const OneLanguageComment: string := "Monogamous with your programming language, I see! " + Ring
  const ManyLanguagesComment: string := "Jack of all trades, master of... some? " + Joker
  const SomeLanguagesComment: string := "Nice language diversity - you're like the United Nations of code! " + Globe
  const NoLanguageAdvice: string := "Start by pushing some code - any code!"
  const OneLanguageAdvice: string := "Try exploring other languages - polyglot programming is the future!"
  const ManyLanguagesAdvice: string := "Consider focusing on a few languages to build deeper expertise."

  const UnnoticedComment: string := "Your repos are like my high school dance - nobody's joining in! " + Dancer
  const PopularComment: string :=
    "Look at you, Mr./Ms. Popular! Your repos are getting more action than a cat video! " + CatFace
  const NoticedComment: string :=
    "Your community engagement is like my gym membership - showing potential but needs more commitment! " + WeightLifter
  const UnnoticedAdvice: string := "Try contributing to popular projects to gain visibility!"
  const NoticedAdvice: string := "Consider creating more shareable content and engaging with other projects!"

  const StaleComment: string := "Your last commit is so old, it probably runs on Windows 95! " + Desktop
  const BusyComment: string := "You're coding like there's no tomorrow! Save some commits for the rest of us! " + Lightning
  const IrregularComment: string := "Your commit history is like my diet - inconsistent but trying! " + Salad
  const StaleAdvice: string := "Time to dust off that keyboard and get coding!"
  const IrregularAdvice: string := "Try to maintain a more regular coding schedule!"

  const MonthStreakComment: string := "Your contribution streak is longer than my Netflix binge sessions! " + Fire
  const FortnightStreakComment: string :=
    "Two weeks of daily commits? Someone's trying to impress their future employer! " + Necktie
  const WeekStreakComment: string := "A week-long streak! Your keyboard must be feeling loved! " + Keyboard
  const SporadicComment: string := "Your contribution graph looks like my gym attendance - sporadic at best! " + Biceps
  const SporadicAdvice: string := "Try to code a little bit every day - consistency is key!"
  const LuckSuffix: string := "\nYou're pushing code faster than I push my luck! " + Die

  // ---------------------------------------------------------------------------
  // Repository quality

  /** `name.toLowerCase().includes(word) || description?.toLowerCase().includes(word)`;
      a null description mentions nothing. */
  predicate Mentions(r: Repository, word: string) {
    Contains(ToLowerAscii(r.name), word) ||
    (r.description.Some? && Contains(ToLowerAscii(r.description.value), word))
  }

  /** Some repository's name or description mentions the word, in any ASCII case. */
  ghost predicate SomeMention(repos: seq<Repository>, word: string) {
    exists i :: 0 <= i < |repos| && Mentions(repos[i], word)
  }

  /** `repositories.some(repo => Mentions(repo, word))`. */
  function AnyMentions(repos: seq<Repository>, word: string): (b: bool)
    ensures b <==> SomeMention(repos, word)
    decreases |repos|
  {
    if repos == [] then false
    else
      var rest := AnyMentions(repos[1..], word);
      assert forall i :: 1 <= i < |repos| ==> repos[i] == repos[1..][i - 1];
      Mentions(repos[0], word) || rest
  }

  /** The comment on documentation and tests: one text for each of the four cases. */
  function RepoQualityComment(hasReadme: bool, hasTests: bool): (comment: string)
    ensures hasReadme && hasTests ==> comment == DocsAndTestsComment
    ensures hasReadme && !hasTests ==> comment == DocsOnlyComment
    ensures !hasReadme && hasTests ==> comment == TestsOnlyComment
    ensures !hasReadme && !hasTests ==> comment == NoDocsNoTestsComment
  {
    if !hasReadme && !hasTests then NoDocsNoTestsComment
    else if !hasReadme then TestsOnlyComment
    else if !hasTests then DocsOnlyComment
    else DocsAndTestsComment
  }

  /** The comment tells which of READMEs and tests were found: the four texts differ. */
  lemma RepoQualityCommentsDistinct(hasReadme: bool, hasTests: bool, hasReadme': bool, hasTests': bool)
    ensures RepoQualityComment(hasReadme, hasTests) == RepoQualityComment(hasReadme', hasTests') <==>
      hasReadme == hasReadme' && hasTests == hasTests'
  {
    assert NoDocsNoTestsComment != TestsOnlyComment && NoDocsNoTestsComment != DocsOnlyComment;
    assert NoDocsNoTestsComment != DocsAndTestsComment && TestsOnlyComment != DocsOnlyComment;
    assert TestsOnlyComment != DocsAndTestsComment && DocsOnlyComment != DocsAndTestsComment;
  }

  /** The advice on documentation and tests: one text for each case that lacks
      something, and none when there are both READMEs and tests. */
  function RepoQualityRecommendation(hasReadme: bool, hasTests: bool): (rec: string)
    ensures rec == "" <==> hasReadme && hasTests
    ensures !hasReadme && !hasTests ==> rec == NoDocsNoTestsAdvice
    ensures !hasReadme && hasTests ==> rec == TestsOnlyAdvice
    ensures hasReadme && !hasTests ==> rec == DocsOnlyAdvice
  {
    if !hasReadme && !hasTests then NoDocsNoTestsAdvice
    else if !hasReadme then TestsOnlyAdvice
    else if !hasTests then DocsOnlyAdvice
    else ""
  }

  /** 85 with READMEs and tests, 65 with READMEs only, 60 with tests only, 40 with neither;
      a README or a test is any mention of the word in a name or a description. */
  function EvaluateRepoQuality(repos: seq<Repository>): (c: RoastCategory)
    ensures c.name == QualityName
    ensures c.score == (if SomeMention(repos, "readme") then (if SomeMention(repos, "test") then 85 else 65)
                        else (if SomeMention(repos, "test") then 60 else 40))
    ensures c.comment == RepoQualityComment(SomeMention(repos, "readme"), SomeMention(repos, "test"))
    ensures c.recommendation == RepoQualityRecommendation(SomeMention(repos, "readme"), SomeMention(repos, "test"))
    ensures c.recommendation == "" <==> c.score == 85
  {
    var hasReadme := AnyMentions(repos, "readme");
    var hasTests := AnyMentions(repos, "test");
    var score := if hasReadme then (if hasTests then 85 else 65) else (if hasTests then 60 else 40);
    RoastCategory(QualityName, score, RepoQualityComment(hasReadme, hasTests),
                  RepoQualityRecommendation(hasReadme, hasTests))
  }

  // ---------------------------------------------------------------------------
  // Code consistency

  /** By the number of keys of `topLanguages`: 0 for none, 60 for one, 75 for more than
      eight, and 85, with no recommendation, for two to eight. */
  function EvaluateCodeConsistency(repos: seq<Repository>, stats: ProfileStats): (c: RoastCategory)
    ensures c.name == ConsistencyName
    ensures c.score == 0 <==> |stats.topLanguages| == 0
    ensures c.score == 60 <==> |stats.topLanguages| == 1
    ensures c.score == 85 <==> 2 <= |stats.topLanguages| <= 8
    ensures c.score == 75 <==> |stats.topLanguages| > 8
    ensures c.recommendation == "" <==> c.score == 85
    ensures |stats.topLanguages| == 0 ==> c.comment == NoLanguageComment && c.recommendation == NoLanguageAdvice
    ensures |stats.topLanguages| == 1 ==> c.comment == OneLanguageComment && c.recommendation == OneLanguageAdvice
    ensures 2 <= |stats.topLanguages| <= 8 ==> c.comment == SomeLanguagesComment
    ensures |stats.topLanguages| > 8 ==> c.comment == ManyLanguagesComment && c.recommendation == ManyLanguagesAdvice
  {
    var languageCount := |stats.topLanguages|;
    if languageCount == 0 then
      RoastCategory(ConsistencyName, 0, NoLanguageComment, NoLanguageAdvice)
    else if languageCount == 1 then
      RoastCategory(ConsistencyName, 60, OneLanguageComment, OneLanguageAdvice)
    else if languageCount > 8 then
      RoastCategory(ConsistencyName, 75, ManyLanguagesComment, ManyLanguagesAdvice)
    else
      RoastCategory(ConsistencyName, 85, SomeLanguagesComment, "")
  }

  /** For statistics computed from the same repositories, the score is 0 exactly when
      no repository names a language. */
  lemma NoLanguageScoresZero(repos: seq<Repository>, stats: ProfileStats)
    requires stats.topLanguages == LanguageCounts(repos)
    ensures EvaluateCodeConsistency(repos, stats).score == 0 <==>
      forall i :: 0 <= i < |repos| ==> !HasLanguage(repos[i])
  {
    if exists i :: 0 <= i < |repos| && HasLanguage(repos[i]) {
      var i :| 0 <= i < |repos| && HasLanguage(repos[i]);
      TopLanguagesSpec(repos, LanguageOf(repos[i]));
    } else if |stats.topLanguages| != 0 {
      var k :| k in stats.topLanguages;
      TopLanguagesSpec(repos, k);
    }
  }

  // ---------------------------------------------------------------------------
  // Community engagement

  /** 30 when there are neither stars nor forks, 90, with no recommendation, when stars
      and forks add up to more than 100, and 60 otherwise. */
  function EvaluateCommunityEngagement(stats: ProfileStats): (c: RoastCategory)
    ensures c.name == CommunityName
    ensures c.score == 30 <==> stats.totalStars == 0 && stats.totalForks == 0
    ensures c.score == 90 <==> stats.totalStars + stats.totalForks > 100
    ensures c.score == 60 <==> 0 < stats.totalStars + stats.totalForks <= 100
    ensures c.recommendation == "" <==> c.score == 90
    ensures c.score == 30 ==> c.comment == UnnoticedComment && c.recommendation == UnnoticedAdvice
    ensures c.score == 90 ==> c.comment == PopularComment
    ensures c.score == 60 ==> c.comment == NoticedComment && c.recommendation == NoticedAdvice
  {
    if stats.totalStars == 0 && stats.totalForks == 0 then
      RoastCategory(CommunityName, 30, UnnoticedComment, UnnoticedAdvice)
    else if stats.totalStars + stats.totalForks > 100 then
      RoastCategory(CommunityName, 90, PopularComment, "")
    else
      RoastCategory(CommunityName, 60, NoticedComment, NoticedAdvice)
  }

  // ---------------------------------------------------------------------------
  // Project maintenance

  /** A 30-day month in milliseconds. */
  const MsPerMonth: int := 1000 * 60 * 60 * 24 * 30

  /** `(now - lastUpdate) / msPerMonth < 3`: updated less than three 30-day months ago
      (a date in the future counts as recent). */
  predicate IsRecent(r: Repository, ts: string -> int, now: int) {
    now - ts(r.lastUpdated) < 3 * MsPerMonth
  }

  ghost predicate NoneRecent(repos: seq<Repository>, ts: string -> int, now: int) {
    forall i :: 0 <= i < |repos| ==> !IsRecent(repos[i], ts, now)
  }

  ghost predicate AllRecent(repos: seq<Repository>, ts: string -> int, now: int) {
    forall i :: 0 <= i < |repos| ==> IsRecent(repos[i], ts, now)
  }

  /** `repositories.filter(IsRecent).length`. */
  function CountRecent(repos: seq<Repository>, ts: string -> int, now: int): (n: nat)
    ensures n <= |repos|
    ensures n == 0 <==> NoneRecent(repos, ts, now)
    ensures n == |repos| <==> AllRecent(repos, ts, now)
    decreases |repos|
  {
    if repos == [] then 0
    else
      var rest := CountRecent(repos[1..], ts, now);
      assert forall i :: 1 <= i < |repos| ==> repos[i] == repos[1..][i - 1];
      (if IsRecent(repos[0], ts, now) then 1 else 0) + rest
  }

  /** 30 with no recently updated repository, 90, with no recommendation, with more than
      five, and 60 otherwise. */
  function EvaluateProjectMaintenance(repos: seq<Repository>, ts: string -> int, now: int): (c: RoastCategory)
    ensures c.name == MaintenanceName
    ensures c.score == 30 <==> NoneRecent(repos, ts, now)
    ensures c.score == 90 <==> CountRecent(repos, ts, now) > 5
    ensures c.score == 60 <==> 1 <= CountRecent(repos, ts, now) <= 5
    ensures c.recommendation == "" <==> c.score == 90
    ensures c.score == 30 ==> c.comment == StaleComment && c.recommendation == StaleAdvice
    ensures c.score == 90 ==> c.comment == BusyComment
    ensures c.score == 60 ==> c.comment == IrregularComment && c.recommendation == IrregularAdvice
  {
    var recentActivity := CountRecent(repos, ts, now);
    if recentActivity == 0 then
      RoastCategory(MaintenanceName, 30, StaleComment, StaleAdvice)
    else if recentActivity > 5 then
      RoastCategory(MaintenanceName, 90, BusyComment, "")
    else
      RoastCategory(MaintenanceName, 60, IrregularComment, IrregularAdvice)
  }

  // ---------------------------------------------------------------------------
  // Contribution activity

  predicate EndsWith(s: string, suffix: string) {
    |suffix| <= |s| && s[|s| - |suffix|..] == suffix
  }

  function StreakScore(streak: int): int {
    if streak > 30 then 95 else if streak > 14 then 85 else if streak > 7 then 75 else 60
  }

  /** A text ending with an emoji other than the die does not end with the second line. */
  lemma NotLuckEnding(text: string, emoji: string)
    requires emoji != [] && emoji[|emoji| - 1] != Die[0]
    ensures !EndsWith(text + emoji, LuckSuffix)
  {
    var s := text + emoji;
    assert s[|s| - 1] == emoji[|emoji| - 1];
    assert LuckSuffix[|LuckSuffix| - 1] == Die[0];
  }

  /** The comment for a streak; none of them ends with the second line that a high weekly
      average adds, because none ends with the same emoji. */
  function StreakComment(streak: int): (comment: string)
    ensures streak > 30 ==> comment == MonthStreakComment
    ensures 14 < streak <= 30 ==> comment == FortnightStreakComment
    ensures 7 < streak <= 14 ==> comment == WeekStreakComment
    ensures streak <= 7 ==> comment == SporadicComment
    ensures !EndsWith(comment, LuckSuffix)
  {
    if streak > 30 then
      NotLuckEnding("Your contribution streak is longer than my Netflix binge sessions! ", Fire);
      MonthStreakComment
    else if streak > 14 then
      NotLuckEnding("Two weeks of daily commits? Someone's trying to impress their future employer! ", Necktie);
      FortnightStreakComment
    else if streak > 7 then
      NotLuckEnding("A week-long streak! Your keyboard must be feeling loved! ", Keyboard);
      WeekStreakComment
    else
      NotLuckEnding("Your contribution graph looks like my gym attendance - sporadic at best! ", Biceps);
      SporadicComment
  }

  /** 95, 85 and 75 for streaks above 30, 14 and 7 days, and 60, the only case with a
      recommendation, otherwise; a weekly average above 20 adds a second line. */
  function EvaluateContributions(stats: ProfileStats): (c: RoastCategory)
    ensures c.name == ActivityName
    ensures c.score == StreakScore(stats.contributionStreak)
    ensures c.recommendation == "" <==> stats.contributionStreak > 7
    ensures stats.contributionStreak <= 7 ==> c.recommendation == SporadicAdvice
    ensures EndsWith(c.comment, LuckSuffix) <==> stats.averageContributionsPerWeek > 20
    ensures StartsWith(c.comment, StreakComment(stats.contributionStreak))
    ensures c.comment == StreakComment(stats.contributionStreak) +
      (if stats.averageContributionsPerWeek > 20 then LuckSuffix else "")
  {
    var streak := stats.contributionStreak;
    var score := StreakScore(streak);
    var comment := StreakComment(streak);
    var recommendation := if streak > 7 then "" else SporadicAdvice;
    if stats.averageContributionsPerWeek > 20 then
      assert (comment + LuckSuffix)[|comment + LuckSuffix| - |LuckSuffix|..] == LuckSuffix;
      assert (comment + LuckSuffix)[..|comment|] == comment;
      RoastCategory(ActivityName, score, comment + LuckSuffix, recommendation)
    else
      RoastCategory(ActivityName, score, comment, recommendation)
  }

  /** A longer streak never scores lower. */
  lemma StreakScoreMonotone(s1: int, s2: int)
    requires s1 <= s2
    ensures StreakScore(s1) <= StreakScore(s2)
  {
  }

  // ---------------------------------------------------------------------------
  // The whole evaluation

  /** The names of the five categories, in the order evaluateProfile pushes them. */
  const CategoryNames: seq<string> := [QualityName, ConsistencyName, CommunityName, MaintenanceName, ActivityName]

  /** The `i`-th category evaluateProfile pushes. */
  function CategoryAt(i: nat, repos: seq<Repository>, stats: ProfileStats, ts: string -> int, now: int): (c: RoastCategory)
    requires i < 5
  {
    if i == 0 then EvaluateRepoQuality(repos)
    else if i == 1 then EvaluateCodeConsistency(repos, stats)
    else if i == 2 then EvaluateCommunityEngagement(stats)
    else if i == 3 then EvaluateProjectMaintenance(repos, ts, now)
    else EvaluateContributions(stats)
  }

  /** Each category has its name and a score between 0 and 100. */
  lemma CategoryAtSpec(i: nat, repos: seq<Repository>, stats: ProfileStats, ts: string -> int, now: int)
    requires i < 5
    ensures CategoryAt(i, repos, stats, ts, now).name == CategoryNames[i]
    ensures 0 <= CategoryAt(i, repos, stats, ts, now).score <= 100
  {
    if i == 0 {
      var c := EvaluateRepoQuality(repos);
    } else if i == 1 {
      var c := EvaluateCodeConsistency(repos, stats);
    } else if i == 2 {
      var c := EvaluateCommunityEngagement(stats);
    } else if i == 3 {
      var c := EvaluateProjectMaintenance(repos, ts, now);
    } else {
      var c := EvaluateContributions(stats);
    }
  }

  /** The five categories are the results of the five evaluators, in push order. */
  lemma CategoriesAreEvaluations(repos: seq<Repository>, stats: ProfileStats, ts: string -> int, now: int)
    ensures Categories(repos, stats, ts, now) ==
      [EvaluateRepoQuality(repos), EvaluateCodeConsistency(repos, stats), EvaluateCommunityEngagement(stats),
       EvaluateProjectMaintenance(repos, ts, now), EvaluateContributions(stats)]
  {
  }

  /** The five categories, in the order evaluateProfile pushes them. */
  function Categories(repos: seq<Repository>, stats: ProfileStats, ts: string -> int, now: int): (cats: seq<RoastCategory>)
    ensures |cats| == 5
    ensures forall i :: 0 <= i < 5 ==> cats[i].name == CategoryNames[i] && 0 <= cats[i].score <= 100
  {
    var cats := seq(5, i requires 0 <= i < 5 => CategoryAt(i, repos, stats, ts, now));
    forall i | 0 <= i < 5 ensures cats[i].name == CategoryNames[i] && 0 <= cats[i].score <= 100 {
      CategoryAtSpec(i, repos, stats, ts, now);
    }
    cats
  }

  /** Sum of the scores. */
  function TotalScore(cats: seq<RoastCategory>): (total: int)
    ensures (forall c <- cats :: 0 <= c.score <= 100) ==> 0 <= total <= 100 * |cats|
    decreases |cats|
  {
    if cats == [] then 0
    else
      assert forall c <- cats[..|cats| - 1] :: c in cats;
      TotalScore(cats[..|cats| - 1]) + cats[|cats| - 1].score
  }

  /** The comments of the categories, in order. */
  function Comments(cats: seq<RoastCategory>): (comments: seq<string>)
    ensures |comments| == |cats|
    ensures forall i :: 0 <= i < |cats| ==> comments[i] == cats[i].comment
    decreases |cats|
  {
    if cats == [] then [] else Comments(cats[..|cats| - 1]) + [cats[|cats| - 1].comment]
  }

  /** `if (category.recommendation)`: the empty string is falsy. */
  predicate HasRecommendation(c: RoastCategory) { c.recommendation != "" }

  function RecommendationOf(c: RoastCategory): string { c.recommendation }

  /** The non-empty recommendations of the categories, in order. */
  function Recommendations(cats: seq<RoastCategory>): (recs: seq<string>)
    ensures |recs| <= |cats|
    ensures forall r <- recs :: r != ""
    ensures forall c <- cats :: c.recommendation != "" ==> c.recommendation in recs
    ensures forall r <- recs :: exists c <- cats :: c.recommendation == r
  {
    FilterMap(cats, HasRecommendation, RecommendationOf)
  }

  /** One category contributes its recommendation exactly when it is not empty. */
  lemma RecommendationsOne(c: RoastCategory)
    ensures Recommendations([c]) == if c.recommendation != "" then [c.recommendation] else []
  {
    assert [c][1..] == [];
  }

  /** The recommendations keep the category order and every repeat: collecting them
      distributes over concatenation. */
  lemma RecommendationsAppend(a: seq<RoastCategory>, b: seq<RoastCategory>)
    ensures Recommendations(a + b) == Recommendations(a) + Recommendations(b)
  {
    FilterMapAppend(a, b, HasRecommendation, RecommendationOf);
  }

  /** One more category adds its score, its comment and its recommendation, if any. */
  lemma TallyStep(categories: seq<RoastCategory>, i: nat)
    requires i < |categories|
    ensures TotalScore(categories[..i + 1]) == TotalScore(categories[..i]) + categories[i].score
    ensures Comments(categories[..i + 1]) == Comments(categories[..i]) + [categories[i].comment]
    ensures Recommendations(categories[..i + 1]) == Recommendations(categories[..i]) +
      if categories[i].recommendation != "" then [categories[i].recommendation] else []
  {
    assert categories[..i + 1][..i] == categories[..i];
    assert categories[..i + 1] == categories[..i] + [categories[i]];
    RecommendationsAppend(categories[..i], [categories[i]]);
    RecommendationsOne(categories[i]);
  }

  /** The `forEach` of evaluateProfile: adds up the scores and collects the comments and
      the non-empty recommendations, category by category. */
  method Tally(categories: seq<RoastCategory>) returns (totalScore: int, humorousComments: seq<string>, recommendations: seq<string>)
    ensures totalScore == TotalScore(categories)
    ensures humorousComments == Comments(categories)
    ensures recommendations == Recommendations(categories)
  {
    totalScore := 0;
    humorousComments := [];
    recommendations := [];
    var i := 0;
    while i < |categories|
      invariant 0 <= i <= |categories|
      invariant totalScore == TotalScore(categories[..i])
      invariant humorousComments == Comments(categories[..i])
      invariant recommendations == Recommendations(categories[..i])
    {
      var category := categories[i];
      TallyStep(categories, i);
      totalScore := totalScore + category.score;
      humorousComments := humorousComments + [category.comment];
      if category.recommendation != "" {
        recommendations := recommendations + [category.recommendation];
      }
      i := i + 1;
    }
    assert categories[..i] == categories;
  }

  /** The result evaluateProfile gives: the five categories, their comments, their
      non-empty recommendations, and the rounded mean of their scores. */
  predicate EvaluationOf(result: EvaluationResult, repos: seq<Repository>, stats: ProfileStats, ts: string -> int, now: int) {
    && result.categories == Categories(repos, stats, ts, now)
    && result.humorousComments == Comments(result.categories)
    && result.recommendations == Recommendations(result.categories)
    && result.overallScore == RoundDiv(TotalScore(result.categories), 5)
  }

  /** evaluateProfile: the categories are evaluated, then tallied. */
  method EvaluateProfile(repos: seq<Repository>, stats: ProfileStats, ts: string -> int, now: int)
    returns (result: EvaluationResult)
    ensures EvaluationOf(result, repos, stats, ts, now)
    ensures 0 <= result.overallScore <= 100
  {
    var categories := Categories(repos, stats, ts, now);
    var totalScore, humorousComments, recommendations := Tally(categories);
    RoundDivBounds(totalScore, 5, 100);
    result := EvaluationResult(RoundDiv(totalScore, 5), humorousComments, recommendations, categories);
  }
}
