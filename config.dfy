/**
 * The bot's fixed configuration (BOT_CONFIG) and the literal delays written in its code.
 * Every value here is read-only for the whole run.
 */
module Config {
  /** Bounds of the random pause after each successful post, in seconds. */
  const MinSleepSeconds: nat := 3600
  const MaxSleepSeconds: nat := 7200
  /** Rest between two cycles: 180 minutes. */
  const CycleSleepMinutes: nat := 180
  /** Pause when an error message mentions a rate limit. */
  const RateLimitSleep: nat := 3600
  /** Attempts made to fetch the questions of one site. */
  const MaxRetries: nat := 3
  const MinPostScore: int := 5
  const BlacklistedPhrases: seq<string> :=
    ["[closed]", "[duplicate]", "moderator", "announcement", "featured", "wiki"]
  const MaxTitleLength: nat := 300
  const MaxDailyComments: nat := 10

  /** Pause after a failed fetch attempt that raised. */
  const FetchRetrySleep: nat := 30
  /** Pause after an error that is not about rate limits. */
  const ErrorSleep: nat := 60
  /** Pause when the daily limit is reached. */
  const QuotaSleep: nat := 3600
  /** Pause after an unexpected error escapes a cycle. */
  const CrashSleep: nat := 300
  /** Lines kept in the dashboard's output buffer, and lines the status page shows. */
  const MaxOutputLines: nat := 100
  const StatusLines: nat := 50
}
