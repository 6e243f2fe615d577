/** Record shapes shared by the services and the components (src/types/index.ts). */
module Types {

  /** A value that may be absent: `null`, `undefined` or a missing property. */
  datatype Option<T> = None | Some(value: T)

  /** Outcome of an operation that either succeeds or throws an `Error` with a message. */
  datatype Outcome<T> = Ok(value: T) | Fail(message: string)

  /** A repository as mapped from the repositories payload. `description` and `language`
      come from the API as nullable values. */
  datatype Repository = Repository(
    name: string,
    description: Option<string>,
    stars: nat,
    forks: nat,
    language: Option<string>,
    lastUpdated: string)

  /** A contribution derived from one public event. `kind` is the event type
      ("PushEvent", ...); `date` is the event's ISO creation time as text. */
  datatype Contribution = Contribution(kind: string, repo: string, date: string, count: nat)

  /** Aggregates derived from the repositories and the contributions. `topLanguages`
      maps a language to the number of repositories written in it. */
  datatype ProfileStats = ProfileStats(
    totalStars: nat,
    totalForks: nat,
    totalRepos: nat,
    topLanguages: map<string, int>,
    contributionsLastYear: int,
    contributionStreak: nat,
    contributions: seq<Contribution>,
    totalContributions: int,
    averageContributionsPerWeek: int)

  /** One scored dimension of the evaluation. An empty `recommendation` means none. */
  datatype RoastCategory = RoastCategory(name: string, score: int, comment: string, recommendation: string)

  datatype EvaluationResult = EvaluationResult(
    overallScore: int,
    humorousComments: seq<string>,
    recommendations: seq<string>,
    categories: seq<RoastCategory>)

  datatype GitHubProfile = GitHubProfile(
    username: string,
    repositories: seq<Repository>,
    stats: ProfileStats,
    evaluationResults: EvaluationResult)

  /** The count of a contribution, as a function value for the folds. */
  function CountOf(c: Contribution): int { c.count }

  /** Sum of the counts of all contributions (`reduce((sum, c) => sum + c.count, 0)`). */
  function SumCounts(cs: seq<Contribution>): (total: int)
    ensures total >= 0
    ensures cs == [] ==> total == 0
    decreases |cs|
  {
    if cs == [] then 0 else SumCounts(cs[..|cs| - 1]) + cs[|cs| - 1].count
  }
}
