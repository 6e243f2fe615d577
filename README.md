# GitHub Profile Roaster — a verified model of its scoring core

GitHub Profile Roaster fetches a user's repositories and recent public events from the
GitHub API. From them it computes profile statistics, scores the profile in five
categories with a humorous comment each, and caches the result in the browser for
thirty minutes. Its components then derive further figures from the statistics:
- the contribution calendar;
- the per-type breakdown;
- the most active repository and day;
- the top languages and holiday badge of the share image.

This project models that core in Dafny and proves properties of the model:

| Module | What it models |
|---|---|
| `Types` | The records of `src/types/index.ts` (repository, contribution, statistics, category, evaluation, profile). |
| `GitHubStats` | The pure and looping parts of `src/services/github.ts`: the event filter and mapper (`processContributions`), the statistics fold (`calculateStats`, a method with a loop), and the longest-streak scan (`calculateContributionStreak`, a method proved against a specification of the longest run). |
| `GitHubEvaluation` | The five category scorers, their comment and recommendation tables, and `evaluateProfile` (a method whose loop accumulates the total score, comments and recommendations). |
| `GitHubService` | The `RateLimiter` class and `fetchGitHubProfile`. The fetch is modelled over already-decoded payloads: a cache hit, a failed fetch, or process → statistics → evaluate → cache. |
| `Cache` | `CacheService` as a class over a `map` standing for the namespaced store. It has the 30-minute expiry, the `gh_roaster_` prefix, and a loop for `clear`. |
| `AnalyticsLog` | The append-only `Analytics` event log and its report. |
| `ContributionCalendar`, `ContributionBreakdown`, `ProfileCard`, `ShareImage` | The aggregations inside the presentation components. |
| `Strings`, `Folds`, `Sorting`, `Ranking`, `Rounding` | Helpers. They model the JavaScript string operations, `reduce` into a dictionary, `Object.entries` / `Object.values` order, a stable descending `sort`, `sort(...)[0]` and `Math.round` of a quotient. |

Modelling conventions:
- **Time.** Timestamps are integers in milliseconds. `new Date(s).getTime()` is a parameter `ts: string -> int`. The clock (`now`) and the one-month and one-year cutoffs are parameters.
- **Integers.** Counts are mathematical integers; JavaScript numbers are exact at these sizes.
- **Rounding.** `Math.round(n / d)` with `d > 0` is `(2n + d) / (2d)` with floor division (halves round up). `Math.floor(gap / 86400000)` is Dafny's `/` with a positive divisor.
- **Dictionaries.** A dictionary built by `reduce` is a `map<string, int>`. Its `Object.entries` order is the first-insertion order of the keys, which holds because no key is an array index. Keys are plain map keys: the model does not reproduce what the source's plain-object dictionaries do with a key such as `constructor` or `__proto__`, which they read as an inherited property.

## Model

| member | source | states |
|---|---|---|
| GitHubStats.ToContribution | src/services/github.ts:79-84 | Type, repository name and date are copied. The count is at least 1. It differs from 1 exactly for a push with more than one commit, and then equals the commit count (an empty or missing list counts 1). |
| GitHubStats.ProcessContributions | src/services/github.ts:76-85 | Every output is a tracked type (push, pull request, issues, create) with count ≥ 1 and is the mapping of some tracked input event; every tracked event's mapping is in the output. |
| GitHubStats.ProcessContributionsAppend | src/services/github.ts:76-85 | Processing distributes over concatenation, so input order is preserved. |
| GitHubStats.TopLanguagesSpec | src/services/github.ts:101-107 | A language has a key exactly when some repository has that non-empty language. Its value is the number of such repositories. The empty language has no key. The values sum to the number of repositories with a language. |
| GitHubStats.SumAfter | src/services/github.ts:113-115 | The count of contributions strictly after the cutoff is between 0 and the total count. It is the total when all are later and 0 when none is. |
| GitHubStats.LongestRunIsMaximum | src/services/github.ts:124-156 | The streak of the date-descending timestamps is the length of some run whose neighbours are at most one floored day apart, and no such run is longer. |
| GitHubStats.ContributionStreak | src/services/github.ts:124-156 | The scan (sort descending, then the loop over current/max streak and last date) returns the longest such run of the sorted timestamps. |
| GitHubStats.StreakBounds | src/services/github.ts:124-156 | The streak is 0 exactly for no contributions and never exceeds their number. |
| GitHubStats.StreakPermutation | src/services/github.ts:130-132 | The streak does not depend on the input order. |
| GitHubStats.StreakOfTwo | src/services/github.ts:140-148 | Two contributions form a streak of 2 exactly when their timestamps are less than 48 hours apart; otherwise the streak is 1. |
| GitHubStats.StreakSameInstant | src/services/github.ts:140-145 | Contributions at one instant all extend the run: the streak counts events, not days. |
| GitHubStats.StreakExample | src/services/github.ts:124-156 | The 4-element example has the run of three consecutive days as its longest streak, with the 7-day gap breaking it. |
| GitHubStats.CalculateStats | src/services/github.ts:87-122 | `StatsOf`: the method's loop yields the repository count, the star and fork sums and the language counts; the contributions, their streak, their total count, the last-year count (≤ total) and the weekly average `round(lastYear / 52)` complete the record. |
| GitHubStats.AverageBounds | src/services/github.ts:117-119 | The weekly average lies between 0 and the last-year count. |
| GitHubEvaluation.AnyMentions | src/services/github.ts:202-207 | True exactly when some repository's lower-cased name or description contains the word. |
| Strings.ContainsIff | src/services/github.ts:202-207 | `includes` holds exactly when the word occurs at some position of the text. |
| GitHubEvaluation.RepoQualityComment | src/services/github.ts:295-304 | The four texts go with (neither, tests only, README only, both) READMEs and tests. |
| GitHubEvaluation.RepoQualityCommentsDistinct | src/services/github.ts:295-304 | The four comments differ, so the comment tells exactly which of READMEs and tests were found. |
| GitHubEvaluation.RepoQualityRecommendation | src/services/github.ts:306-315 | No readme and no tests, tests only, and readme only each get their own advice text. The recommendation is empty exactly when there are both readme and test mentions. |
| GitHubEvaluation.EvaluateRepoQuality | src/services/github.ts:201-217 | Score 85/65/60/40 by readme and test mentions. The comment and the recommendation are the ones `RepoQualityComment` and `RepoQualityRecommendation` give for the same two facts. The recommendation is empty exactly at 85. |
| GitHubEvaluation.EvaluateCodeConsistency | src/services/github.ts:219-243 | Score 0, 60, 85 or 75 exactly for 0, 1, 2–8 or more than 8 languages. Each band gets its own comment; 0, 1 and more than 8 languages each get their own advice. The recommendation is empty exactly at 85. |
| GitHubEvaluation.NoLanguageScoresZero | src/services/github.ts:225-228 | With the computed language counts, consistency scores 0 exactly when no repository has a language. |
| GitHubEvaluation.EvaluateCommunityEngagement | src/services/github.ts:245-265 | Score 30 exactly when stars and forks are both 0, 90 exactly when their sum exceeds 100, otherwise 60. Each band gets its own comment; 30 and 60 each get their own advice. The recommendation is empty exactly at 90. |
| GitHubEvaluation.CountRecent | src/services/github.ts:269-273 | The number of repositories updated less than 90 days before now is at most their number. It is 0 exactly when none is recent and the full count exactly when all are. |
| GitHubEvaluation.EvaluateProjectMaintenance | src/services/github.ts:267-293 | Score 30 exactly when no repository is recent, 90 exactly when more than 5 are, otherwise 60. Each band gets its own comment; 30 and 60 each get their own advice. The recommendation is empty exactly at 90. |
| GitHubEvaluation.StreakComment | src/services/github.ts:324-337 | A streak above 30, in 15–30, in 8–14, or at most 7 days gets its own comment. No streak comment ends with the luck suffix. |
| GitHubEvaluation.EvaluateContributions | src/services/github.ts:318-349 | Score from the streak table (95/85/75/60 above 30/14/7). The recommendation is empty when the streak exceeds 7 and is the sporadic-activity advice otherwise. The comment is exactly the streak comment, followed by the luck suffix exactly when the weekly average exceeds 20. |
| GitHubEvaluation.StreakScoreMonotone | src/services/github.ts:324-337 | A longer streak never scores lower. |
| GitHubEvaluation.CategoryAtSpec | src/services/github.ts:164-182 | The i-th evaluator gives the i-th category name and a score between 0 and 100. |
| GitHubEvaluation.Categories | src/services/github.ts:164-182 | Exactly five categories in the order Repository Quality, Code Consistency, Community Engagement, Project Maintenance, Contribution Activity, each scoring 0–100. |
| GitHubEvaluation.CategoriesAreEvaluations | src/services/github.ts:164-182 | The category list is exactly the results of the repository quality, code consistency, community engagement, project maintenance and contribution evaluators, in that order. |
| GitHubEvaluation.TotalScore | src/services/github.ts:185-186 | With scores in 0–100 the total lies in 0 to 100 per category. |
| GitHubEvaluation.Comments | src/services/github.ts:187 | The comments are the categories' comments, one per category, in order. |
| GitHubEvaluation.Recommendations | src/services/github.ts:188-190 | Every collected recommendation is non-empty and comes from a category, and every non-empty one is kept. |
| GitHubEvaluation.RecommendationsOne | src/services/github.ts:188-190 | One category contributes its recommendation exactly when it is non-empty. |
| GitHubEvaluation.RecommendationsAppend | src/services/github.ts:185-191 | Collecting distributes over concatenation, so with `RecommendationsOne` the list is the non-empty recommendations in category order, repeats included. |
| GitHubEvaluation.Tally | src/services/github.ts:185-191 | The loop accumulates exactly the total score, the comments and the recommendations. |
| GitHubEvaluation.EvaluateProfile | src/services/github.ts:158-199 | `EvaluationOf`: the result holds the five categories, their comments and recommendations, and `overallScore == round(total / 5)`, which lies in 0–100. |
| GitHubService.CheckLimitStep | src/services/github.ts:18-28 | A call fails exactly when at least 60 requests were counted and the clock is before the reset time, and then changes nothing. Otherwise it succeeds, and the count becomes 1 when it had reached 60 (the reset) and one more below 60. |
| GitHubService.RateLimiter.CheckLimit | src/services/github.ts:14-29 | The limiter method performs exactly that step on its request count. The reset time is a constant, never reassigned. |
| GitHubService.StepKeepsBound | src/services/github.ts:18-28 | The request count never exceeds 60. |
| GitHubService.BeforeResetTime | src/services/github.ts:18-28 | Before the reset time the i-th call succeeds exactly when `requests + i < 60`. |
| GitHubService.FromResetTime | src/services/github.ts:18-28 | From the reset time on every call succeeds. |
| GitHubService.FreshLimiter | src/services/github.ts:14-29 | A fresh limiter allows exactly the first 60 calls made before its creation time, and all calls from then on. |
| GitHubService.FetchGitHubProfile | src/services/github.ts:31-74 | A fresh cached profile is returned unchanged. A failed fetch gives the single error message. Otherwise the profile holds the user name and the repositories; its statistics are those of `CalculateStats` (`StatsOf`) over the processed contributions; and its evaluation is that of `EvaluateProfile` (`EvaluationOf`) over those statistics. The profile is stored in the cache. |
| Cache.StoreKey | src/services/cache.ts:9-16 | The store key is the prefix `gh_roaster_` followed by the key. |
| Cache.StoreKeyInjective | src/services/cache.ts:9-16 | Different keys have different store keys. |
| Cache.Stored | src/services/cache.ts:11-17 | `set` adds or overwrites the prefixed key with the data and the current time; every other entry is unchanged. |
| Cache.GetResult | src/services/cache.ts:19-30 | `get` returns the data exactly when the prefixed key is present and at most 30 minutes old. |
| Cache.AfterGet | src/services/cache.ts:24-27 | `get` removes an expired entry and otherwise changes nothing. |
| Cache.Removed | src/services/cache.ts:32-34 | `remove` deletes the prefixed key and nothing else. |
| Cache.Cleared | src/services/cache.ts:36-40 | `clear` keeps exactly the entries whose key lacks the prefix, unchanged. |
| Cache.CacheService.Set | src/services/cache.ts:11-17 | The class method's new store is `Stored` of the old one. |
| Cache.CacheService.Get | src/services/cache.ts:19-30 | The class method returns `GetResult` and leaves `AfterGet` of the old store. |
| Cache.CacheService.Remove | src/services/cache.ts:32-34 | The class method's new store is `Removed` of the old one. |
| Cache.CacheService.Clear | src/services/cache.ts:36-40 | The loop over the prefixed keys leaves `Cleared` of the old store. |
| Cache.SetThenGet | src/services/cache.ts:6-30 | A `get` at most 30 minutes after `set` returns the data and changes nothing. |
| Cache.SetThenGetExpired | src/services/cache.ts:6-27 | A `get` more than 30 minutes after `set` returns nothing and removes the entry. |
| Cache.SetOverwrites | src/services/cache.ts:11-17 | A second `set` of a key replaces the first entirely. |
| Cache.GetAbsent | src/services/cache.ts:20-21 | `get` of an absent key returns nothing and changes nothing. |
| Cache.OtherKeysUnaffected | src/services/cache.ts:11-34 | `set`, `remove` and `get` of one key never change what `get` of another key returns. |
| Cache.RemoveThenGet | src/services/cache.ts:32-34 | After `remove`, `get` returns nothing. |
| Cache.ClearThenGet | src/services/cache.ts:36-40 | After `clear`, `get` of any key returns nothing. |
| Cache.ClearAfterSet | src/services/cache.ts:36-40 | `clear` erases whatever `set` or `remove` did before it. |
| AnalyticsLog.Analytics.TrackEvent | src/services/analytics.ts:18-22 | The event is appended at the end of the log; earlier events are unchanged. |
| AnalyticsLog.Analytics.GenerateReport | src/services/analytics.ts:24-37 | The report holds the log and its length. A category has a count exactly when logged, and the count is its number of events (≥ 1). The counts sum to the total. |
| AnalyticsLog.CategoryCountsSpec | src/services/analytics.ts:25-28 | The per-category fold has a key exactly for the logged categories, holds their event counts and sums to the number of events. |
| AnalyticsLog.CountInCategoryBounds | src/services/analytics.ts:25-28 | A category's count lies between 0 and the log length and is positive exactly when the category is logged. |
| AnalyticsLog.TrackedCounts | src/services/analytics.ts:18-28 | Appending an event adds one to its category's count and leaves every other count unchanged. |
| ContributionCalendar.ContributionsByDateSpec | src/components/ContributionCalendar.tsx:17-22 | A day (date text before the first 'T') has an entry exactly when some dated contribution falls on it. The entry is the sum of their counts, no key holds a 'T', and the entries sum to the dated total. |
| ContributionCalendar.DatedTotal | src/components/ContributionCalendar.tsx:17-22 | The dated total lies between 0 and the total count, and equals it when every contribution is dated. |
| ContributionCalendar.BandIndex | src/components/ContributionCalendar.tsx:46-52 | Band 0 exactly for 0, 1 for 1–2, 2 for 3–5, 3 for 6–10, 4 above 10. |
| ContributionCalendar.Intensity | src/components/ContributionCalendar.tsx:46-52 | The colour class is the band's class in `Bands`. |
| ContributionCalendar.BandMonotone | src/components/ContributionCalendar.tsx:46-52 | More contributions never give a paler band. |
| ContributionCalendar.AbsentDayIsEmpty | src/components/ContributionCalendar.tsx:63 | A day without an entry is looked up as 0 and shown as `bg-gray-800`. |
| ContributionCalendar.DetailOfSpec | src/components/ContributionCalendar.tsx:38-42 | The type has its first "Event" removed, with "Unknown" for an empty type. The repository is the last '/'-segment, or `unknown` when that is empty. |
| ContributionCalendar.ContributionDetails | src/components/ContributionCalendar.tsx:35-44 | Exactly the contributions whose date starts with the day and whose count is positive are listed, each through `DetailOf`. |
| ContributionCalendar.ContributionDetailsAppend | src/components/ContributionCalendar.tsx:35-44 | Listing distributes over concatenation, so input order is kept. |
| ContributionCalendar.DetailsPositive | src/components/ContributionCalendar.tsx:35-44 | Every listed detail has a positive count. |
| ContributionCalendar.CalendarGrid | src/components/ContributionCalendar.tsx:26-33 | 52 weeks of 7 cells, each holding its distance in days from today. |
| ContributionCalendar.GridOrder | src/components/ContributionCalendar.tsx:26-33 | Cells show distinct days of the last 364, later cells show later days, and the last cell is today. |
| ContributionCalendar.GridCoversYear | src/components/ContributionCalendar.tsx:26-33 | Every one of the last 364 days has a cell. |
| ContributionBreakdown.TypeBreakdownSpec | src/components/ContributionBreakdown.tsx:9-12 | A type has an entry exactly when it occurs, and the entry is the sum of its counts. |
| ContributionBreakdown.TotalIsSumOfCounts | src/components/ContributionBreakdown.tsx:14 | The total summed over the entries is the sum of all contribution counts, which is also the sum of the breakdown's values. |
| ContributionBreakdown.BreakdownRows | src/components/ContributionBreakdown.tsx:27-38 | One row per type in entry order, titled with its first "Event" removed, holding the type's total. |
| Folds.DistinctKeysFirstSeen | src/components/ContributionBreakdown.tsx:27-38 | Keys come out in order of first appearance: wherever a later key occurs among the kept entries, every earlier key has already occurred before it. |
| Ranking.TopEntry | src/components/ProfileCard.tsx:54 | The first entry after the descending sort is an entry that no other entry exceeds. |
| Ranking.TopGroup | src/components/ProfileCard.tsx:46-54 | Absent exactly when nothing is grouped. Otherwise it is a present key with its total, and no key has a larger total. |
| ProfileCard.MostActiveRepo | src/components/ProfileCard.tsx:41-55 | `['No repos', 0]` when no contribution names a repository. Otherwise a named repository with its total, which no repository's total exceeds. |
| ProfileCard.BestContributionDay | src/components/ProfileCard.tsx:57-73 | `'No data'` with 0 when no contribution is dated. Otherwise a day (no 'T') with its total, which no day's total exceeds. |
| ProfileCard.RepoLabel | src/components/ProfileCard.tsx:178 | Exactly `SecondField(repo, '/')`: nothing when the name has no '/', otherwise the text after the first '/' up to the next '/' or the end, which itself has no '/'. |
| ProfileCard.NoReposLabelIsEmpty | src/components/ProfileCard.tsx:178 | The `No repos` placeholder shows no repository name. |
| ProfileCard.ContributionStats | src/components/ProfileCard.tsx:23-39 | The recent total counts contributions strictly after the one-month cutoff and lies between 0 and the total count. |
| ShareImage.Band | src/components/ShareImage.tsx:100-118 | The band is the first of the thresholds 90, 80, 70, 60, 50, 40 that the score reaches, or the fallback band. |
| ShareImage.HolidayEmoji | src/components/ShareImage.tsx:100-108 | The emoji is the band's emoji. |
| ShareImage.HolidayComment | src/components/ShareImage.tsx:110-118 | The comment is the band's comment. |
| ShareImage.BandTextsDistinct | src/components/ShareImage.tsx:100-118 | Distinct bands have distinct emojis and distinct comments. |
| ShareImage.SameCommentIffSameEmoji | src/components/ShareImage.tsx:100-118 | Two scores get the same comment exactly when they get the same emoji, exactly when they fall in the same band. |
| ShareImage.ProfileLanguages | src/services/github.ts:101-107 | The language counts of any profile are positive and listed once each, as the top-language list requires. |
| ShareImage.TotalOfCounts | src/components/ShareImage.tsx:66 | The sum of the values is the sum of all counts, positive, and no count exceeds it. |
| ShareImage.TopLanguages | src/components/ShareImage.tsx:65-73 | At most 3 entries (3, or all languages when fewer), sorted by percentage descending. Each is a language with `round(count * 100 / total)`. No language is listed twice, and no language left out has a larger percentage than the last one listed. |
| ShareImage.SharesNamedOnce | src/components/ShareImage.tsx:65-71 | However the shares are reordered by the sort, no language appears twice. |
| ShareImage.TotalPRs | src/components/ShareImage.tsx:94 | The number of pull-request contributions is at most the number of contributions. |
| ShareImage.PullRequestsSurviveProcessing | src/components/ShareImage.tsx:94 | Counting pull requests after processing counts the pull-request events received. |
| ShareImage.ActiveRepos | src/components/ShareImage.tsx:95 | The number of distinct repository names is at most the number of contributions, and at least 1 when there are any. |
| ShareImage.ImageStatsOf | src/components/ShareImage.tsx:85-90 | Commits, streak, repos and stars copy the profile's total contributions, streak, repository count and stars. |
| ShareImage.ActivityStatsOf | src/components/ShareImage.tsx:91-96 | The best streak is the shown streak. Pull requests and active repositories are counted as above, each at most the number of contributions. |

## Left out

- The GitHub API calls, the mapping of their JSON responses and the error collapsing of `fetchGitHubProfile` are I/O. The decoded payload is a parameter: absent stands for any failure, present for the mapped repositories and the raw events.
- The exceptions a malformed response could raise inside the `try` (a missing `repo` field, say) are not modelled separately; they are covered only by the absent payload.
- JSON serialisation and `localStorage`: the cache store is a map of `(data, timestamp)` entries owned by one `CacheService` object, not a static class sharing the browser's storage with other code.
- `Date` parsing and calendar arithmetic: `new Date(s)` is the parameter `ts`, and `Date.now()`, the one-month and the one-year cutoffs are parameters.
- The calendar grid is modelled as day offsets from today; the ISO date strings of those days (`toISOString`) are not produced.
- The best day is returned as its date key; the `toLocaleDateString` formatting of it is not modelled.
- Floating-point display values are not modelled: `percentage.toFixed(1)` in the breakdown, `avgPerDay` in the profile card and share image, and the chart percentages.
- ShareImage.TopLanguages: rounds the percentage exactly (`(200 * count + total) / (2 * total)`, floor division), so a floating-point product that lands just below a half can round differently in the source.
- ShareImage.TopLanguages: requires every count positive and the names listed once each, as `ShareImage.ProfileLanguages` shows `calculateStats` always produces. With a zero total the source divides by zero (NaN percentages), which the model does not represent.
- The tie-break order among equal maxima is not stated: `MostActiveRepo`, `BestContributionDay` and `TopLanguages` prove only that the chosen entry is a maximum.
- `count || 0` in the calendar: counts are natural numbers here and always present, so the missing-count case does not arise.
- Lower-casing in the readme/test checks covers ASCII letters only; Unicode case mapping is not modelled.
- One `now` parameter stands for three separate clock reads in `fetchGitHubProfile`: the cache `get` (`Date.now()`), the `new Date()` of `evaluateProjectMaintenance`, and the `Date.now()` of the final cache `set`. The model gives all three the same instant.
- AnalyticsLog.Analytics.GenerateReport: the report holds a copy of the log. In the source `events` is the live array, so a report a caller keeps also shows events tracked after it was made; that aliasing is not modelled.
- AnalyticsLog.Analytics.GenerateReport: a category named like an inherited object property (`constructor`, `__proto__`, `toString`) is counted normally here. In the source's `reduce` into `{}` such a key starts from the inherited value or is swallowed by the prototype setter, so its count is wrong or missing.
- `RateLimiter` is modelled as written, but nothing in the source calls it, so `fetchGitHubProfile` does not use it here either.
- ContributionPatterns.tsx (local-time buckets), React rendering, animations, tooltips, charts, the type icons, image capture and the random snow layout are presentation only.
- src/services/settings.ts, SearchBar, ProfileSkeleton, ErrorBoundary, A11yProvider, CompareProfiles, ComparisonChart and LanguageChart hold no logic beyond presentation and are not part of this model.
